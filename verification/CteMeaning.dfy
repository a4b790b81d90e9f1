/**
 What the assembled WITH statement says: the texts it is put together from, each with the values its
 author gave it, and exactly when the statement says the same.
 */
module CteMeaning {
  import opened Common
  import opened Ast
  import opened Ctes
  import opened Parts
  import opened Placeholders
  import opened SqlText
  import Decimal
  import Deparser
  import Lexer

  // --- the texts a statement is put together from ------------------------------------------------------

  type Parted = seq<Part<Datum>>

  /** The arguments of unnest after k parameters. */
  function CastParts(cs: seq<Column>, k: nat): Parted {
    if cs == [] then []
    else
      var n := |cs| - 1;
      CastParts(cs[..n], k) + [Literal(CastHead(n == 0)), Single(k + n, cs[n].values), Literal(CastTail(cs[n]))]
  }

  function StepParts(c: Cte): Parted
    requires c.Raw?
  {
    [Part(c.step.sql, |c.base.params|, c.step.params)] +
    if c.maxDepth.None? then []
    else [Literal(DepthGuard(c, RenumberSqlParams(c.step.sql, |c.base.params|))),
          Single(|c.base.params| + |c.step.params|, c.maxDepth.value)]
  }

  function RawParts(c: Cte): Parted
    requires c.Raw?
  {
    [Literal(RawHead(c.name)), Part(c.base.sql, 0, c.base.params), Literal(SetOp(c.unionAll))]
    + StepParts(c) + [Literal(")")]
  }

  /** A CTE that follows k parameters: every text with the values its author gave it. */
  function CteParts(c: Cte, k: nat): Parted {
    match c
    case Unnest(name, columns, indexColumn) =>
      [Literal(UnnestHead(name, columns, indexColumn))] + CastParts(columns, k)
      + [Literal(UnnestTail(columns, indexColumn))]
    case Raw(_, _, _, _, _, _) => Moved(RawParts(c), k)
    case Simple(name, query) => [Literal(RawHead(name)), Part(query.sql, k, query.params), Literal(")")]
  }

  function ListParts(cs: seq<Cte>): Parted {
    if cs == [] then []
    else
      var front := cs[..|cs| - 1];
      ListParts(front) + (if front == [] then [] else [Literal(", ")]) + CteParts(cs[|cs| - 1], |AllParams(front)|)
  }

  function StatementParts(cs: seq<Cte>, outer: Query): Parted {
    var tail := Part(outer.sql, |AllParams(cs)|, outer.params);
    if cs == [] then [tail] else [Literal(Keyword(Recursive(cs)))] + ListParts(cs) + [Literal(" "), tail]
  }

  // --- what the authors meant -----------------------------------------------------------------------------

  type Said = seq<Bound<Datum>>

  function Lit(s: string): Said { Says(s, []) }

  function MeantQuery(q: Query): Said { Says(q.sql, q.params) }

  /** The select list of an unnest CTE: each column of t under its own name, then the position if it is asked for. */
  function MeantSelected(cs: seq<Column>, indexColumn: Option<string>): seq<string> {
    seq(|cs|, i requires 0 <= i < |cs| =>
      "t." + Deparser.QuoteIdent(cs[i].name) + " AS " + Deparser.QuoteIdent(cs[i].name)) +
    if indexColumn.None? then [] else ["t.ordinality - 1 AS " + Deparser.QuoteIdent(indexColumn.value)]
  }

  /** The columns of t. */
  function MeantColumns(cs: seq<Column>, indexColumn: Option<string>): seq<string> {
    seq(|cs|, i requires 0 <= i < |cs| => Deparser.QuoteIdent(cs[i].name)) +
    if indexColumn.None? then [] else ["ordinality"]
  }

  /** The arrays of the columns, in the order of the columns. */
  function MeantCasts(cs: seq<Column>): Said {
    if cs == [] then []
    else
      var n := |cs| - 1;
      MeantCasts(cs[..n]) +
      (Lit(if n == 0 then "CAST(" else ", CAST(") + [Value(cs[n].values)] + Lit(" AS " + cs[n].baseType + "[])"))
  }

  /** The word WHERE stands in the text, in either case and not as part of a longer word. */
  ghost predicate HasWhere(s: string) {
    exists i | 0 <= i <= |s| - 5 :: StandsAlone(s, i, "where")
  }

  /** From i on the text is this word, and the characters around it belong to no word. */
  predicate StandsAlone(s: string, i: nat, word: string)
    requires i + |word| <= |s|
  {
    var j := i + |word|;
    Lower(s[i..j]) == word && (i > 0 ==> !WordCode(s[i - 1] as int)) && (j < |s| ==> !WordCode(s[j] as int))
  }

  /** Digits, letters and the underscore, by their code points. */
  predicate WordCode(n: int) { 48 <= n <= 57 || 65 <= n <= 90 || n == 95 || 97 <= n <= 122 }

  function Lower(s: string): string { seq(|s|, i requires 0 <= i < |s| => LowerChar(s[i])) }

  function LowerChar(c: char): char { if 65 <= c as int <= 90 then (c as int + 32) as char else c }

  /** The depth limit is one more condition of a step that has a WHERE, and the only one of another. */
  ghost function MeantStep(c: Cte): Said
    requires c.Raw?
  {
    MeantQuery(c.step) +
    if c.maxDepth.None? then []
    else
      Lit((if HasWhere(RenumberSqlParams(c.step.sql, |c.base.params|)) then " AND " else " WHERE ") +
          Deparser.Quote(c.depthColumn, '"') + " < ") + [Value(c.maxDepth.value)]
  }

  /** A CTE with every value where its author put it. */
  ghost function MeantCte(c: Cte): Said {
    match c
    case Unnest(name, columns, indexColumn) =>
      Lit(Deparser.QuoteIdent(name) + " AS (SELECT " + Deparser.Join(MeantSelected(columns, indexColumn), ", ") +
          " FROM unnest(") +
      MeantCasts(columns) +
      Lit(")" + (if indexColumn.None? then "" else " WITH ORDINALITY") + " AS t(" +
          Deparser.Join(MeantColumns(columns, indexColumn), ", ") + "))")
    case Raw(name, base, _, unionAll, _, _) =>
      Lit("\"" + name + "\" AS (") + MeantQuery(base) + Lit(if unionAll then " UNION ALL " else " UNION ")
      + MeantStep(c) + Lit(")")
    case Simple(name, query) => Lit("\"" + name + "\" AS (") + MeantQuery(query) + Lit(")")
  }

  ghost function MeantList(cs: seq<Cte>): Said {
    if cs == [] then []
    else MeantList(cs[..|cs| - 1]) + (if |cs| == 1 then [] else Lit(", ")) + MeantCte(cs[|cs| - 1])
  }

  ghost function MeantStatement(cs: seq<Cte>, outer: Query): Said {
    if cs == [] then MeantQuery(outer)
    else
      Lit(if exists c | c in cs :: c.Raw? then "WITH RECURSIVE " else "WITH ") + MeantList(cs) + Lit(" ") +
      MeantQuery(outer)
  }

  /** The lists are written as they are meant. */
  lemma ListsAsMeant(cs: seq<Column>, indexColumn: Option<string>)
    ensures Targets(cs) + (if indexColumn.None? then []
                           else ["t.ordinality - 1 AS " + Deparser.QuoteIdent(indexColumn.value)])
            == MeantSelected(cs, indexColumn)
    ensures Aliases(cs) + (if indexColumn.None? then [] else ["ordinality"]) == MeantColumns(cs, indexColumn)
  {
    ListLengths(cs);
    forall i | 0 <= i < |cs|
      ensures Aliases(cs)[i] == Deparser.QuoteIdent(cs[i].name)
      ensures Targets(cs)[i] == "t." + Deparser.QuoteIdent(cs[i].name) + " AS " + Deparser.QuoteIdent(cs[i].name)
    {
      ListsKeepOrder(cs, i);
    }
    assert Targets(cs) == seq(|cs|, i requires 0 <= i < |cs| =>
      "t." + Deparser.QuoteIdent(cs[i].name) + " AS " + Deparser.QuoteIdent(cs[i].name));
    assert Aliases(cs) == seq(|cs|, i requires 0 <= i < |cs| => Deparser.QuoteIdent(cs[i].name));
  }

  lemma LowerWhere(s: string)
    requires |s| == 5
    ensures SpellsWhere(s) <==> Lower(s) == "where"
  {
    var w := "where";
    assert w[0] == 'w' && w[1] == 'h' && w[2] == 'e' && w[3] == 'r' && w[4] == 'e';
    var l := Lower(s);
    assert l[0] == LowerChar(s[0]) && l[1] == LowerChar(s[1]) && l[2] == LowerChar(s[2]) && l[3] == LowerChar(s[3]) &&
           l[4] == LowerChar(s[4]);
  }

  /** The word is recognised exactly where it stands. */
  lemma MentionsWhereExactly(s: string)
    ensures MentionsWhere(s) <==> HasWhere(s)
  {
    forall i | 0 <= i <= |s| - 5 ensures WordAt(s, i) <==> StandsAlone(s, i, "where") {
      LowerWhere(s[i..i + 5]);
    }
  }

  lemma GuardAsMeant(c: Cte, step: string)
    requires c.Raw?
    ensures DepthGuard(c, step)
            == (if HasWhere(step) then " AND " else " WHERE ") + Deparser.Quote(c.depthColumn, '"') + " < "
  {
    MentionsWhereExactly(step);
  }

  /** The element of an array at a position; unnest pads the shorter arrays with nulls. */
  function Element(values: Datum, r: nat): Datum {
    if values.ArrayVal? && r < |values.items| then values.items[r] else Null
  }

  /** Row r of `unnest(arrays) AS t(names)`, asked for one of the names. */
  function CellOfRow(name: string, names: seq<string>, arrays: seq<Datum>, r: nat): Datum
    requires |names| == |arrays|
  {
    if names == [] then Null
    else if names[0] == name then Element(arrays[0], r)
    else CellOfRow(name, names[1..], arrays[1..], r)
  }

  lemma {:induction false} CellAt(names: seq<string>, arrays: seq<Datum>, i: nat, r: nat)
    requires |names| == |arrays| && i < |names| && forall j | 0 <= j < i :: names[j] != names[i]
    ensures CellOfRow(names[i], names, arrays, r) == Element(arrays[i], r)
  {
    if i > 0 { CellAt(names[1..], arrays[1..], i - 1, r); }
  }

  /** Each column of an unnest CTE yields its own array, row by row. */
  lemma ColumnYieldsItsArray(c: Cte, i: nat, r: nat)
    requires c.Unnest? && i < |c.columns|
    requires forall j | 0 <= j < i :: c.columns[j].name != c.columns[i].name
    ensures |Aliases(c.columns)| == |Params(c)|
    ensures CellOfRow(Deparser.QuoteIdent(c.columns[i].name), Aliases(c.columns), Params(c), r)
            == Element(c.columns[i].values, r)
  {
    var cs := c.columns;
    ListsKeepOrder(cs, i);
    forall j | 0 <= j < i ensures Aliases(cs)[j] != Aliases(cs)[i] {
      ListsKeepOrder(cs, j);
      if Aliases(cs)[j] == Aliases(cs)[i] { Lexer.QuoteIdentInjective(cs[j].name, cs[i].name); }
    }
    CellAt(Aliases(cs), Params(c), i, r);
  }

  // --- what is asked of the fragments, and when renumbering does them no harm -----------------------------

  /** A compiled query: its quotes are closed and each of its placeholders has a value. */
  ghost predicate CompleteQuery(q: Query) { Whole(q.sql) && Closed(q.sql, |q.params|) }

  /** Names are validated, queries are complete and type names hold no placeholders. */
  ghost predicate CompleteCte(c: Cte) {
    match c
    case Unnest(_, columns, _) => forall col | col in columns :: Quiet(col.baseType)
    case Raw(name, base, step, _, _, _) => ValidIdentifier(name) && CompleteQuery(base) && CompleteQuery(step)
    case Simple(name, query) => ValidIdentifier(name) && CompleteQuery(query)
  }

  /** No dollar sign before a digit is hidden in quotes or words. */
  predicate Open(sql: string) { !Hidden(sql, Plain) }

  /** The depth limit's parameter and its column name. */
  predicate CleanGuard(c: Cte)
    requires c.Raw?
  {
    c.maxDepth.Some? ==> Clean(c.depthColumn)
  }

  predicate UntouchedStep(c: Cte, k: nat)
    requires c.Raw?
  {
    (k + |c.base.params| == 0 || Open(c.step.sql)) && (k == 0 || CleanGuard(c))
  }

  /** After k parameters: a text that is moved hides no dollar sign before a digit. */
  predicate UntouchedCte(c: Cte, k: nat) {
    match c
    case Unnest(_, _, _) => true
    case Raw(name, base, _, _, _, _) => (k == 0 || (Clean(name) && Open(base.sql))) && UntouchedStep(c, k)
    case Simple(_, query) => k == 0 || Open(query.sql)
  }

  predicate UntouchedList(cs: seq<Cte>) {
    cs != [] ==>
      UntouchedList(cs[..|cs| - 1]) && UntouchedCte(cs[|cs| - 1], |AllParams(cs[..|cs| - 1])|)
  }

  predicate UntouchedStatement(cs: seq<Cte>, outer: Query) {
    UntouchedList(cs) && (AllParams(cs) == [] || Open(outer.sql))
  }

  // --- the fixed texts ------------------------------------------------------------------------------------

  /** A name whose quotes need no doubling. */
  lemma {:induction false} NothingToDouble(name: string)
    requires '"' !in name
    ensures Deparser.Double(name, '"') == name
  {
    if name != [] {
      assert name[0] in name && forall c | c in name[1..] :: c in name;
      NothingToDouble(name[1..]);
    }
  }

  lemma AsReads()
    ensures Quiet(" AS (") && Open(" AS (")
  {
    PlainIsQuiet(" AS (");
  }

  lemma NoQuoteInside(name: string)
    requires ValidIdentifier(name)
    ensures Deparser.Quote(name, '"') + " AS (" == RawHead(name)
  {
    assert '"' !in name;
    NothingToDouble(name);
  }

  lemma RawHeadReads(name: string)
    requires ValidIdentifier(name)
    ensures Quiet(RawHead(name)) && Fenced(RawHead(name)) && Open(RawHead(name)) == Clean(name)
  {
    AsReads();
    QuotedNameReads(name, " AS (");
    NoQuoteInside(name);
    assert RawHead(name)[|RawHead(name)| - 1] == '(';
  }

  lemma DepthGuardReads(c: Cte, step: string)
    requires c.Raw?
    ensures var guard := DepthGuard(c, step);
      Quiet(guard) && Fenced(guard) && Starter(guard) && Open(guard) == Clean(c.depthColumn)
  {
    var word := if MentionsWhere(step) then " AND " else " WHERE ";
    var rest := Deparser.Quote(c.depthColumn, '"') + " < ";
    PlainIsQuiet(word);
    PlainIsQuiet(" < ");
    QuotedNameReads(c.depthColumn, " < ");
    assert Fenced(word);
    QuietBoth(word, rest);
    assert DepthGuard(c, step) == word + rest;
  }

  lemma FixedTexts()
    ensures Quiet(")") && Quiet(" ") && Quiet(", ") && Open(")") && Open(" ") && Open(", ")
    ensures Starter(")") && Starter(" ") && Starter(", ") && Fenced(" ") && Fenced(", ")
  {
    PlainIsQuiet(")");
    PlainIsQuiet(" ");
    PlainIsQuiet(", ");
  }

  lemma SetOpReads(unionAll: bool)
    ensures var op := SetOp(unionAll); Quiet(op) && Open(op) && Starter(op) && Fenced(op)
  {
    PlainIsQuiet(SetOp(unionAll));
  }

  lemma KeywordReads(recursive: bool)
    ensures var word := Keyword(recursive); Quiet(word) && Open(word) && Fenced(word)
  {
    PlainIsQuiet(Keyword(recursive));
  }

  lemma CastHeadReads(first: bool)
    ensures var head := CastHead(first); Quiet(head) && Starter(head) && Fenced(head)
  {
    PlainIsQuiet(CastHead(first));
  }

  lemma CastTailReads(c: Column)
    requires Quiet(c.baseType)
    ensures Quiet(CastTail(c)) && Starter(CastTail(c)) && Fenced(CastTail(c))
  {
    PlainIsQuiet(" AS ");
    PlainIsQuiet("[])");
    QuietBoth(" AS ", c.baseType);
    QuietBoth(" AS " + c.baseType, "[])");
  }

  /** Quiet texts joined by commas. */
  lemma {:induction false} JoinedIsQuiet(texts: seq<string>)
    requires forall t | t in texts :: Quiet(t)
    ensures Quiet(Deparser.Join(texts, ", "))
  {
    if texts == [] {
      PlainIsQuiet([]);
    } else if |texts| > 1 {
      assert texts[0] in texts && forall t | t in texts[1..] :: t in texts;
      FixedTexts();
      JoinedIsQuiet(texts[1..]);
      QuietBoth(texts[0], ", ");
      assert Fenced(texts[0] + ", ");
      QuietBoth(texts[0] + ", ", Deparser.Join(texts[1..], ", "));
    }
  }

  lemma TargetIsQuiet(c: Column)
    ensures Quiet(Target(c)) && Quiet(Alias(c))
  {
    NameIsQuiet(c.name);
    QualifiedIsQuiet(Alias(c));
    QuietBoth("t." + Alias(c) + " AS ", Alias(c));
  }

  lemma QualifiedIsQuiet(name: string)
    requires Quiet(name)
    ensures Quiet("t." + name + " AS ") && Fenced("t." + name + " AS ")
  {
    PlainIsQuiet("t.");
    PlainIsQuiet(" AS ");
    QuietBoth("t.", name);
    QuietBoth("t." + name, " AS ");
  }

  lemma {:induction false} ListsAreQuiet(cs: seq<Column>)
    ensures forall t | t in Targets(cs) :: Quiet(t)
    ensures forall t | t in Aliases(cs) :: Quiet(t)
  {
    if cs != [] {
      ListsAreQuiet(cs[..|cs| - 1]);
      TargetIsQuiet(cs[|cs| - 1]);
    }
  }

  lemma OrdinalityIsQuietWord()
    ensures Quiet("ordinality")
  {
    PlainIsQuiet("ordinality");
  }

  lemma IndexTextReads()
    ensures Quiet("t.ordinality - 1 AS ") && Fenced("t.ordinality - 1 AS ")
  {
    IndexTextIsPlain();
    PlainIsQuiet("t.ordinality - 1 AS ");
  }

  lemma IndexTextIsPlain()
    ensures NoSpecial("t.ordinality - 1 AS ")
  {
  }

  lemma OrdinalityIsQuiet(indexColumn: Option<string>)
    ensures Quiet("ordinality")
    ensures indexColumn.Some? ==> Quiet("t.ordinality - 1 AS " + Deparser.QuoteIdent(indexColumn.value))
  {
    OrdinalityIsQuietWord();
    if indexColumn.Some? {
      IndexTextReads();
      NameIsQuiet(indexColumn.value);
      QuietBoth("t.ordinality - 1 AS ", Deparser.QuoteIdent(indexColumn.value));
    }
  }

  lemma UnnestHeadReads(name: string, cs: seq<Column>, indexColumn: Option<string>)
    ensures var head := UnnestHead(name, cs, indexColumn); Quiet(head) && Fenced(head)
  {
    var index := if indexColumn.None? then [] else ["t.ordinality - 1 AS " + Deparser.QuoteIdent(indexColumn.value)];
    NameIsQuiet(name);
    ListsAreQuiet(cs);
    OrdinalityIsQuiet(indexColumn);
    JoinedIsQuiet(Targets(cs) + index);
    SelectListIsQuiet(Deparser.QuoteIdent(name), Deparser.Join(Targets(cs) + index, ", "));
  }

  lemma SelectListIsQuiet(name: string, list: string)
    requires Quiet(name) && Quiet(list)
    ensures var head := name + " AS (SELECT " + list + " FROM unnest("; Quiet(head) && Fenced(head)
  {
    SelectReads();
    FromReads();
    FencedMiddle(name, " AS (SELECT ", list);
    QuietBoth(name + " AS (SELECT " + list, " FROM unnest(");
  }

  lemma SelectReads()
    ensures Quiet(" AS (SELECT ") && Starter(" AS (SELECT ") && Fenced(" AS (SELECT ")
  {
    PlainIsQuiet(" AS (SELECT ");
  }

  lemma FromReads()
    ensures Quiet(" FROM unnest(") && Starter(" FROM unnest(") && Fenced(" FROM unnest(")
  {
    PlainIsQuiet(" FROM unnest(");
  }

  /** A text between two others that keeps both apart. */
  lemma FencedMiddle(a: string, middle: string, b: string)
    requires Quiet(a) && Quiet(middle) && Quiet(b) && Starter(middle) && Fenced(middle)
    ensures Quiet(a + middle + b)
  {
    QuietBoth(a, middle);
    assert Fenced(a + middle) by { assert (a + middle)[|a + middle| - 1] == middle[|middle| - 1]; }
    QuietBoth(a + middle, b);
  }

  lemma TailTexts(withOrdinality: bool)
    ensures var a := ")" + (if withOrdinality then " WITH ORDINALITY" else "") + " AS t(";
      Quiet(a) && Starter(a) && Fenced(a)
    ensures Quiet("))") && Starter("))")
  {
    if withOrdinality {
      LongTail();
    } else {
      ShortTail();
    }
    PlainIsQuiet("))");
  }

  lemma LongTail()
    ensures NoSpecial(")" + " WITH ORDINALITY" + " AS t(") && Quiet(")" + " WITH ORDINALITY" + " AS t(")
  {
    PlainIsQuiet(")" + " WITH ORDINALITY" + " AS t(");
  }

  lemma ShortTail()
    ensures Quiet(")" + "" + " AS t(")
  {
    PlainIsQuiet(")" + "" + " AS t(");
  }

  lemma UnnestTailReads(cs: seq<Column>, indexColumn: Option<string>)
    ensures var tail := UnnestTail(cs, indexColumn); Quiet(tail) && Starter(tail)
  {
    var ordinality := if indexColumn.None? then [] else ["ordinality"];
    var a := ")" + (if indexColumn.None? then "" else " WITH ORDINALITY") + " AS t(";
    var b := Deparser.Join(Aliases(cs) + ordinality, ", ");
    TailTexts(indexColumn.Some?);
    ListsAreQuiet(cs);
    OrdinalityIsQuietWord();
    JoinedIsQuiet(Aliases(cs) + ordinality);
    QuietBoth(a, b);
    QuietBoth(a + b, "))");
  }

  // --- the texts spell the fragments -------------------------------------------------------------------------

  lemma TextOfThree(a: Part<Datum>, b: Part<Datum>, c: Part<Datum>)
    ensures Text([a, b, c]) == Rendered(a) + Rendered(b) + Rendered(c)
  {
    assert [a, b, c][1..] == [b, c] && [b, c][1..] == [c];
    TextOfOne(c);
    assert Text([b, c]) == Rendered(b) + Text([c]);
    Associative(Rendered(a), Rendered(b), Rendered(c));
  }

  lemma {:induction false} CastsSpelled(cs: seq<Column>, k: nat)
    ensures Text(CastParts(cs, k)) == Casts(cs, k)
  {
    if cs != [] {
      CastsSpelled(cs[..|cs| - 1], k);
      LastCastSpelled(cs, k);
    }
  }

  lemma LastCastSpelled(cs: seq<Column>, k: nat)
    requires cs != [] && Text(CastParts(cs[..|cs| - 1], k)) == Casts(cs[..|cs| - 1], k)
    ensures Text(CastParts(cs, k)) == Casts(cs, k)
  {
    var n := |cs| - 1;
    var a, b, c := Literal<Datum>(CastHead(n == 0)), Single(k + n, cs[n].values), Literal<Datum>(CastTail(cs[n]));
    var front, word, number, tail := Casts(cs[..n], k), CastHead(n == 0), "$" + Decimal.Print(k + |cs|),
        CastTail(cs[n]);
    TextOfBoth(CastParts(cs[..n], k), [a, b, c]);
    TextOfThree(a, b, c);
    SingleText(k + n, cs[n].values);
    Associative(word, number, tail);
    Associative(front, word, number + tail);
  }

  lemma StepSpelled(c: Cte)
    requires c.Raw?
    ensures Text(StepParts(c)) == StepSql(c)
  {
    var step := Part(c.step.sql, |c.base.params|, c.step.params);
    TextOfOne(step);
    if c.maxDepth.Some? {
      var guard := Literal<Datum>(DepthGuard(c, RenumberSqlParams(c.step.sql, |c.base.params|)));
      var limit := Single(|c.base.params| + |c.step.params|, c.maxDepth.value);
      assert StepParts(c) == [step, guard, limit];
      TextOfThree(step, guard, limit);
      SingleText(|c.base.params| + |c.step.params|, c.maxDepth.value);
    } else {
      assert StepParts(c) == [step];
    }
  }

  lemma RawSpelled(c: Cte)
    requires c.Raw?
    ensures Text(RawParts(c)) == RawSql(c)
  {
    var head, base, op := Literal<Datum>(RawHead(c.name)), Part(c.base.sql, 0, c.base.params),
        Literal<Datum>(SetOp(c.unionAll));
    TextOfBoth([head, base, op] + StepParts(c), [Literal(")")]);
    TextOfBoth([head, base, op], StepParts(c));
    TextOfThree(head, base, op);
    StepSpelled(c);
    TextOfOne(Literal<Datum>(")"));
  }

  lemma FragmentSpelled(c: Cte, k: nat)
    requires CompleteCte(c)
    ensures Text(CteParts(c, k)) == Fragment(c, k)
  {
    match c
    case Unnest(name, columns, indexColumn) =>
      var head, tail := Literal<Datum>(UnnestHead(name, columns, indexColumn)),
                        Literal<Datum>(UnnestTail(columns, indexColumn));
      TextOfBoth([head] + CastParts(columns, k), [tail]);
      TextOfBoth([head], CastParts(columns, k));
      TextOfOne(head);
      TextOfOne(tail);
      CastsSpelled(columns, k);
    case Raw(_, _, _, _, _, _) =>
      RawLinked(c);
      RenumberText(RawParts(c), k);
      RawSpelled(c);
    case Simple(name, query) => TextOfThree(Literal(RawHead(name)), Part(query.sql, k, query.params), Literal(")"));
  }

  lemma {:induction false} ListSpelled(cs: seq<Cte>)
    requires forall c | c in cs :: CompleteCte(c)
    ensures Text(ListParts(cs)) == JoinBack(Fragments(cs), ", ")
  {
    if cs != [] {
      var front, last := cs[..|cs| - 1], cs[|cs| - 1];
      var sep: Parted := if front == [] then [] else [Literal(", ")];
      var k := |AllParams(front)|;
      ListSpelled(front);
      FragmentSpelled(last, k);
      LastFragment(cs);
      TextOfBoth(ListParts(front) + sep, CteParts(last, k));
      TextOfBoth(ListParts(front), sep);
      if front != [] { TextOfOne(Literal<Datum>(", ")); }
    }
  }

  lemma StatementSpelled(cs: seq<Cte>, outer: Query)
    requires forall c | c in cs :: CompleteCte(c)
    ensures Text(StatementParts(cs, outer)) == Statement(cs, outer).sql
  {
    var tail := Part(outer.sql, |AllParams(cs)|, outer.params);
    if cs == [] {
      TextOfOne(tail);
    } else {
      var word := Literal<Datum>(Keyword(Recursive(cs)));
      ListSpelled(cs);
      TextOfBoth([word] + ListParts(cs), [Literal(" "), tail]);
      TextOfBoth([word], ListParts(cs));
      TextOfOne(word);
      TailSpelled(tail);
      Associative(Keyword(Recursive(cs)) + JoinBack(Fragments(cs), ", "), " ", Rendered(tail));
    }
  }

  lemma TailSpelled(tail: Part<Datum>)
    ensures Text([Literal(" "), tail]) == " " + Rendered(tail)
  {
    TextOfBoth([Literal(" ")], [tail]);
    assert [Literal(" ")] + [tail] == [Literal(" "), tail];
    TextOfOne(Literal<Datum>(" "));
    TextOfOne(tail);
  }

  lemma LastFragment(cs: seq<Cte>)
    requires cs != []
    ensures var front := cs[..|cs| - 1];
      JoinBack(Fragments(cs), ", ")
      == JoinBack(Fragments(front), ", ") + (if front == [] then [] else ", ") +
          Fragment(cs[|cs| - 1], |AllParams(front)|)
  {
    var fs := Fragments(cs);
    assert fs[..|fs| - 1] == Fragments(cs[..|cs| - 1]);
  }

  // --- they are linked, complete and in place -------------------------------------------------------------------

  lemma LinkedPair(a: Part<Datum>, b: Part<Datum>)
    requires Fenced(a.text) || Starter(b.text)
    ensures Linked([a, b])
  {
  }

  lemma LinkedThree(a: Part<Datum>, b: Part<Datum>, c: Part<Datum>)
    requires Fenced(a.text) || Starter(b.text)
    requires Fenced(b.text) || Starter(c.text)
    ensures Linked([a, b, c])
  {
  }

  lemma {:induction false} CastsLinked(cs: seq<Column>, k: nat)
    requires forall col | col in cs :: Quiet(col.baseType)
    ensures Linked(CastParts(cs, k))
    ensures cs != [] ==> CastParts(cs, k) != [] && Fenced(CastParts(cs, k)[|CastParts(cs, k)| - 1].text)
  {
    if cs != [] {
      var n := |cs| - 1;
      var a, b, c := Literal<Datum>(CastHead(n == 0)), Single(k + n, cs[n].values), Literal<Datum>(CastTail(cs[n]));
      CastsLinked(cs[..n], k);
      CastHeadReads(n == 0);
      CastTailReads(cs[n]);
      LinkedThree(a, b, c);
      LinkedBoth(CastParts(cs[..n], k), [a, b, c]);
    }
  }

  lemma StepLinked(c: Cte)
    requires c.Raw?
    ensures Linked(StepParts(c)) && StepParts(c) != []
  {
    var step := Part(c.step.sql, |c.base.params|, c.step.params);
    if c.maxDepth.Some? {
      var text := DepthGuard(c, RenumberSqlParams(c.step.sql, |c.base.params|));
      DepthGuardReads(c, RenumberSqlParams(c.step.sql, |c.base.params|));
      var limit := Single(|c.base.params| + |c.step.params|, c.maxDepth.value);
      assert StepParts(c) == [step, Literal(text), limit];
      LinkedThree(step, Literal(text), limit);
    }
  }

  lemma RawLinked(c: Cte)
    requires c.Raw? && ValidIdentifier(c.name)
    ensures Linked(RawParts(c)) && RawParts(c) != []
  {
    var head, base, op := Literal<Datum>(RawHead(c.name)), Part(c.base.sql, 0, c.base.params),
        Literal<Datum>(SetOp(c.unionAll));
    RawHeadReads(c.name);
    SetOpReads(c.unionAll);
    FixedTexts();
    LinkedThree(head, base, op);
    StepLinked(c);
    LinkedBoth([head, base, op], StepParts(c));
    LinkedBoth([head, base, op] + StepParts(c), [Literal(")")]);
  }

  lemma MovedLinked(ps: Parted, k: nat)
    requires Linked(ps)
    ensures Linked(Moved(ps, k))
  {
    forall i | 0 <= i < |ps| - 1 ensures Fenced(Moved(ps, k)[i].text) || Starter(Moved(ps, k)[i + 1].text) {
      assert Fenced(ps[i].text) || Starter(ps[i + 1].text);
    }
  }

  lemma CteLinked(c: Cte, k: nat)
    requires CompleteCte(c)
    ensures Linked(CteParts(c, k)) && CteParts(c, k) != []
  {
    match c
    case Unnest(name, columns, indexColumn) =>
      var head, tail := Literal<Datum>(UnnestHead(name, columns, indexColumn)),
                        Literal<Datum>(UnnestTail(columns, indexColumn));
      UnnestHeadReads(name, columns, indexColumn);
      UnnestTailReads(columns, indexColumn);
      CastsLinked(columns, k);
      LinkedBoth([head], CastParts(columns, k));
      LinkedBoth([head] + CastParts(columns, k), [tail]);
    case Raw(_, _, _, _, _, _) =>
      RawLinked(c);
      MovedLinked(RawParts(c), k);
    case Simple(name, query) =>
      RawHeadReads(name);
      FixedTexts();
      LinkedThree(Literal(RawHead(name)), Part(query.sql, k, query.params), Literal(")"));
  }

  lemma {:induction false} ListLinked(cs: seq<Cte>)
    requires forall c | c in cs :: CompleteCte(c)
    ensures Linked(ListParts(cs)) && (cs != [] ==> ListParts(cs) != [])
  {
    if cs != [] {
      var front, last := cs[..|cs| - 1], cs[|cs| - 1];
      var k := |AllParams(front)|;
      ListLinked(front);
      CteLinked(last, k);
      FixedTexts();
      if front == [] {
        assert ListParts(cs) == CteParts(last, k);
      } else {
        LinkedBoth(ListParts(front), [Literal(", ")]);
        LinkedBoth(ListParts(front) + [Literal(", ")], CteParts(last, k));
      }
    }
  }

  lemma StatementLinked(cs: seq<Cte>, outer: Query)
    requires forall c | c in cs :: CompleteCte(c)
    ensures Linked(StatementParts(cs, outer))
  {
    if cs != [] {
      var word := Literal<Datum>(Keyword(Recursive(cs)));
      var tail := Part(outer.sql, |AllParams(cs)|, outer.params);
      ListLinked(cs);
      KeywordReads(Recursive(cs));
      FixedTexts();
      LinkedBoth([word], ListParts(cs));
      LinkedPair(Literal(" "), tail);
      LinkedBoth([word] + ListParts(cs), [Literal(" "), tail]);
    }
  }

  /** Every part is complete and the array holds its values at its place. */
  ghost predicate InPlace(ps: Parted, params: seq<Datum>) {
    forall p | p in ps :: Complete(p) && HoldsAt(params, p.shift, p.own)
  }

  predicate AllUntouched(ps: Parted) { forall p | p in ps :: Untouched(p) }

  /** One part on its own. */
  lemma OneInPlace(p: Part<Datum>, params: seq<Datum>)
    requires Complete(p) && HoldsAt(params, p.shift, p.own)
    ensures InPlace([p], params) && (AllUntouched([p]) <==> Untouched(p)) && Meant([p]) == Says(p.text, p.own)
  {
    assert p in [p];
    MeantOfOne(p);
  }

  lemma ThreeInPlace(a: Part<Datum>, b: Part<Datum>, c: Part<Datum>, params: seq<Datum>)
    requires Complete(a) && HoldsAt(params, a.shift, a.own)
    requires Complete(b) && HoldsAt(params, b.shift, b.own)
    requires Complete(c) && HoldsAt(params, c.shift, c.own)
    ensures InPlace([a, b, c], params)
    ensures AllUntouched([a, b, c]) <==> Untouched(a) && Untouched(b) && Untouched(c)
    ensures Meant([a, b, c]) == Says(a.text, a.own) + Says(b.text, b.own) + Says(c.text, c.own)
  {
    ThreeUntouched(a, b, c);
    MeantOfThree(a, b, c);
  }

  lemma InPlaceBoth(a: Parted, b: Parted, params: seq<Datum>)
    requires InPlace(a, params) && InPlace(b, params)
    ensures InPlace(a + b, params)
  {
  }

  lemma UntouchedBoth(a: Parted, b: Parted)
    ensures AllUntouched(a + b) <==> AllUntouched(a) && AllUntouched(b)
  {
    if AllUntouched(a + b) {
      assert forall p | p in a :: p in a + b;
      assert forall p | p in b :: p in a + b;
    }
  }

  lemma LiteralInPlace(s: string, params: seq<Datum>)
    requires Quiet(s)
    ensures InPlace([Literal(s)], params) && AllUntouched([Literal<Datum>(s)])
  {
  }

  lemma {:induction false} CastsInPlace(cs: seq<Column>, before: seq<Datum>, after: seq<Datum>)
    requires forall col | col in cs :: Quiet(col.baseType)
    ensures InPlace(CastParts(cs, |before|), before + ColumnValues(cs) + after)
    ensures AllUntouched(CastParts(cs, |before|))
    ensures Meant(CastParts(cs, |before|)) == MeantCasts(cs)
  {
    if cs != [] {
      var n, k := |cs| - 1, |before|;
      var all := before + ColumnValues(cs) + after;
      assert all == before + ColumnValues(cs[..n]) + ([cs[n].values] + after);
      CastsInPlace(cs[..n], before, [cs[n].values] + after);
      MoreCasts(cs, k, all);
    }
  }

  lemma MoreCasts(cs: seq<Column>, k: nat, all: seq<Datum>)
    requires cs != [] && Quiet(cs[|cs| - 1].baseType)
    requires k + |cs| - 1 < |all| && all[k + |cs| - 1] == cs[|cs| - 1].values
    requires var front := cs[..|cs| - 1];
      && InPlace(CastParts(front, k), all) && AllUntouched(CastParts(front, k))
      && Meant(CastParts(front, k)) == MeantCasts(front)
    ensures InPlace(CastParts(cs, k), all) && AllUntouched(CastParts(cs, k))
    ensures Meant(CastParts(cs, k)) == MeantCasts(cs)
  {
    var n := |cs| - 1;
    var last := [Literal(CastHead(n == 0)), Single(k + n, cs[n].values), Literal(CastTail(cs[n]))];
    OneCast(cs[n], n == 0, k + n, all);
    InPlaceBoth(CastParts(cs[..n], k), last, all);
    UntouchedBoth(CastParts(cs[..n], k), last);
    MeantOfBoth(CastParts(cs[..n], k), last);
  }

  lemma OneCast(c: Column, first: bool, k: nat, all: seq<Datum>)
    requires Quiet(c.baseType) && k < |all| && all[k] == c.values
    ensures var ps := [Literal(CastHead(first)), Single(k, c.values), Literal(CastTail(c))];
      && InPlace(ps, all) && AllUntouched(ps)
      && Meant(ps) == Lit(CastHead(first)) + [Value(c.values)] + Lit(CastTail(c))
  {
    CastHeadReads(first);
    CastTailReads(c);
    SingleText(k, c.values);
    assert all[k..k + 1] == [c.values];
    ThreeInPlace(Literal(CastHead(first)), Single(k, c.values), Literal(CastTail(c)), all);
  }

  lemma MeantOfThree(a: Part<Datum>, b: Part<Datum>, c: Part<Datum>)
    ensures Meant([a, b, c]) == Says(a.text, a.own) + Says(b.text, b.own) + Says(c.text, c.own)
  {
    assert [a, b, c][1..] == [b, c] && [b, c][1..] == [c] && [c][1..] == [];
    MeantOfOne(c);
    assert Meant([b, c]) == Says(b.text, b.own) + Meant([c]);
    Associative(Says(a.text, a.own), Says(b.text, b.own), Says(c.text, c.own));
  }

  lemma MeantOfOne(p: Part<Datum>)
    ensures Meant([p]) == Says(p.text, p.own)
  {
    assert [p][1..] == [] && Says(p.text, p.own) + [] == Says(p.text, p.own);
  }

  lemma StepInPlace(c: Cte)
    requires c.Raw? && CompleteCte(c)
    ensures InPlace(StepParts(c), Params(c)) && Meant(StepParts(c)) == MeantStep(c)
    ensures AllUntouched(StepParts(c)) <==> |c.base.params| == 0 || Open(c.step.sql)
  {
    var k := |c.base.params|;
    var step := Part(c.step.sql, k, c.step.params);
    assert Params(c)[k..k + |c.step.params|] == c.step.params;
    if c.maxDepth.Some? {
      GuardedStepInPlace(c);
    } else {
      OneInPlace(step, Params(c));
      assert StepParts(c) == [step];
      assert MeantQuery(c.step) + [] == MeantQuery(c.step);
    }
  }

  lemma GuardedStepInPlace(c: Cte)
    requires c.Raw? && CompleteCte(c) && c.maxDepth.Some?
    ensures InPlace(StepParts(c), Params(c)) && Meant(StepParts(c)) == MeantStep(c)
    ensures AllUntouched(StepParts(c)) <==> |c.base.params| == 0 || Open(c.step.sql)
  {
    var k, n := |c.base.params|, |c.step.params|;
    var text := DepthGuard(c, RenumberSqlParams(c.step.sql, k));
    var step, guard, limit := Part(c.step.sql, k, c.step.params), Literal<Datum>(text), Single(k + n, c.maxDepth.value);
    assert Params(c)[k..k + n] == c.step.params;
    assert Params(c)[k + n..k + n + 1] == [c.maxDepth.value];
    DepthGuardReads(c, RenumberSqlParams(c.step.sql, k));
    SingleText(k + n, c.maxDepth.value);
    assert StepParts(c) == [step, guard, limit];
    ThreeInPlace(step, guard, limit, Params(c));
    StepAsMeant(c);
  }

  lemma StepAsMeant(c: Cte)
    requires c.Raw? && c.maxDepth.Some?
    ensures MeantStep(c)
            == MeantQuery(c.step) + Lit(DepthGuard(c, RenumberSqlParams(c.step.sql, |c.base.params|))) +
               [Value(c.maxDepth.value)]
  {
    var text := DepthGuard(c, RenumberSqlParams(c.step.sql, |c.base.params|));
    GuardAsMeant(c, RenumberSqlParams(c.step.sql, |c.base.params|));
    Associative(MeantQuery(c.step), Lit(text), [Value(c.maxDepth.value)]);
  }

  lemma {:induction false} RawInPlace(c: Cte)
    requires c.Raw? && CompleteCte(c)
    ensures InPlace(RawParts(c), Params(c)) && Meant(RawParts(c)) == MeantCte(c)
  {
    var head, base, op := Literal<Datum>(RawHead(c.name)), Part(c.base.sql, 0, c.base.params),
        Literal<Datum>(SetOp(c.unionAll));
    var close := Literal<Datum>(")");
    RawHeadReads(c.name);
    SetOpReads(c.unionAll);
    FixedTexts();
    StepInPlace(c);
    assert Params(c)[0..|c.base.params|] == c.base.params;
    ThreeInPlace(head, base, op, Params(c));
    OneInPlace(close, Params(c));
    InPlaceBoth([head, base, op], StepParts(c), Params(c));
    InPlaceBoth([head, base, op] + StepParts(c), [close], Params(c));
    MeantOfBoth([head, base, op], StepParts(c));
    MeantOfBoth([head, base, op] + StepParts(c), [close]);
  }

  lemma MovedInPlace(ps: Parted, before: seq<Datum>, own: seq<Datum>, after: seq<Datum>)
    requires InPlace(ps, own)
    ensures InPlace(Moved(ps, |before|), before + own + after)
  {
    var all, k := before + own + after, |before|;
    forall p | p in Moved(ps, k) ensures Complete(p) && HoldsAt(all, p.shift, p.own) {
      var i :| 0 <= i < |ps| && Moved(ps, k)[i] == p;
      assert ps[i] in ps;
      HeldInside(before, own, after, ps[i].shift, ps[i].own);
    }
  }

  lemma HeldInside(before: seq<Datum>, own: seq<Datum>, after: seq<Datum>, k: nat, values: seq<Datum>)
    requires HoldsAt(own, k, values)
    ensures HoldsAt(before + own + after, |before| + k, values)
  {
    var all, i := before + own + after, |before| + k;
    assert all[i..i + |values|] == own[k..k + |values|];
  }

  lemma MovedBoth(a: Parted, b: Parted, k: nat)
    ensures Moved(a + b, k) == Moved(a, k) + Moved(b, k)
  {
  }

  lemma StepUntouched(c: Cte, k: nat)
    requires c.Raw?
    ensures AllUntouched(Moved(StepParts(c), k)) <==> UntouchedStep(c, k)
  {
    var step := Part(c.step.sql, |c.base.params| + k, c.step.params);
    if c.maxDepth.Some? {
      GuardedStepUntouched(c, k);
    } else {
      assert Moved(StepParts(c), k) == [step] && step in [step];
    }
  }

  lemma GuardUntouched(c: Cte, step: string, k: nat)
    requires c.Raw?
    ensures Untouched<Datum>(Part(DepthGuard(c, step), k, [])) <==> k == 0 || Clean(c.depthColumn)
  {
    DepthGuardReads(c, step);
  }

  lemma LimitUntouched(k: nat, value: Datum)
    ensures Untouched(Single(k, value))
  {
    SingleText(k, value);
  }

  lemma GuardedStepUntouched(c: Cte, k: nat)
    requires c.Raw? && c.maxDepth.Some?
    ensures AllUntouched(Moved(StepParts(c), k)) <==> UntouchedStep(c, k)
  {
    var b := |c.base.params|;
    var renumbered := RenumberSqlParams(c.step.sql, b);
    GuardUntouched(c, renumbered, k);
    LimitUntouched(b + |c.step.params| + k, c.maxDepth.value);
    MovedStep(c, k);
    ThreeUntouched(Part(c.step.sql, b + k, c.step.params), Part(DepthGuard(c, renumbered), k, []),
                   Single(b + |c.step.params| + k, c.maxDepth.value));
  }

  lemma MovedStep(c: Cte, k: nat)
    requires c.Raw? && c.maxDepth.Some?
    ensures var b := |c.base.params|;
      Moved(StepParts(c), k) == [Part(c.step.sql, b + k, c.step.params),
                                 Part(DepthGuard(c, RenumberSqlParams(c.step.sql, b)), k, []),
                                 Single(b + |c.step.params| + k, c.maxDepth.value)]
  {
  }

  lemma ThreeUntouched(a: Part<Datum>, b: Part<Datum>, c: Part<Datum>)
    ensures AllUntouched([a, b, c]) <==> Untouched(a) && Untouched(b) && Untouched(c)
  {
    assert a in [a, b, c] && b in [a, b, c] && c in [a, b, c];
  }

  lemma MovedThree(a: Part<Datum>, b: Part<Datum>, c: Part<Datum>, k: nat)
    ensures Moved([a, b, c], k)
            == [a.(shift := a.shift + k), b.(shift := b.shift + k), c.(shift := c.shift + k)]
  {
  }

  lemma CloseUntouched(k: nat)
    ensures AllUntouched(Moved([Literal<Datum>(")")], k))
  {
    FixedTexts();
    assert Moved([Literal<Datum>(")")], k) == [Part(")", k, [])];
  }

  lemma HeadUntouched(c: Cte, k: nat)
    requires c.Raw? && ValidIdentifier(c.name)
    ensures AllUntouched(Moved([Literal(RawHead(c.name)), Part(c.base.sql, 0, c.base.params),
        Literal(SetOp(c.unionAll))], k))
            <==> k == 0 || (Clean(c.name) && Open(c.base.sql))
  {
    var head, base := Literal<Datum>(RawHead(c.name)), Part(c.base.sql, 0, c.base.params);
    var op := Literal<Datum>(SetOp(c.unionAll));
    RawHeadReads(c.name);
    SetOpReads(c.unionAll);
    MovedThree(head, base, op, k);
    ThreeUntouched(head.(shift := k), base.(shift := k), op.(shift := k));
  }

  lemma RawUntouched(c: Cte, k: nat)
    requires c.Raw? && ValidIdentifier(c.name)
    ensures AllUntouched(Moved(RawParts(c), k)) <==> UntouchedCte(c, k)
  {
    var front := [Literal(RawHead(c.name)), Part(c.base.sql, 0, c.base.params), Literal(SetOp(c.unionAll))];
    var step, close := StepParts(c), [Literal<Datum>(")")];
    HeadUntouched(c, k);
    CloseUntouched(k);
    StepUntouched(c, k);
    MovedBoth(front + step, close, k);
    MovedBoth(front, step, k);
    UntouchedBoth(Moved(front + step, k), Moved(close, k));
    UntouchedBoth(Moved(front, k), Moved(step, k));
  }

  lemma UnnestInPlace(c: Cte, before: seq<Datum>, after: seq<Datum>)
    requires c.Unnest? && CompleteCte(c)
    ensures InPlace(CteParts(c, |before|), before + Params(c) + after) && AllUntouched(CteParts(c, |before|))
    ensures Meant(CteParts(c, |before|)) == MeantCte(c)
  {
    var k, all := |before|, before + Params(c) + after;
    var head, tail := UnnestHead(c.name, c.columns, c.indexColumn), UnnestTail(c.columns, c.indexColumn);
    var casts := CastParts(c.columns, k);
    UnnestHeadReads(c.name, c.columns, c.indexColumn);
    UnnestTailReads(c.columns, c.indexColumn);
    ListsAsMeant(c.columns, c.indexColumn);
    CastsInPlace(c.columns, before, after);
    LiteralInPlace(head, all);
    LiteralInPlace(tail, all);
    InPlaceBoth([Literal(head)], casts, all);
    InPlaceBoth([Literal(head)] + casts, [Literal(tail)], all);
    UntouchedBoth([Literal(head)], casts);
    UntouchedBoth([Literal(head)] + casts, [Literal(tail)]);
    MeantOfOne(Literal(head));
    MeantOfOne(Literal(tail));
    MeantOfBoth([Literal(head)], casts);
    MeantOfBoth([Literal(head)] + casts, [Literal(tail)]);
  }

  lemma SimpleInPlace(c: Cte, before: seq<Datum>, after: seq<Datum>)
    requires c.Simple? && CompleteCte(c)
    ensures InPlace(CteParts(c, |before|), before + Params(c) + after) && Meant(CteParts(c, |before|)) == MeantCte(c)
    ensures AllUntouched(CteParts(c, |before|)) <==> UntouchedCte(c, |before|)
  {
    var k, all := |before|, before + Params(c) + after;
    var head, body, close := Literal<Datum>(RawHead(c.name)), Part(c.query.sql, k, c.query.params), Literal<Datum>(")");
    RawHeadReads(c.name);
    FixedTexts();
    OwnSlice(before, Params(c), after);
    ThreeUntouched(head, body, close);
    MeantOfThree(head, body, close);
  }

  lemma OwnSlice(before: seq<Datum>, own: seq<Datum>, after: seq<Datum>)
    ensures (before + own + after)[|before|..|before| + |own|] == own
  {
  }

  lemma CteInPlace(c: Cte, before: seq<Datum>, after: seq<Datum>)
    requires CompleteCte(c)
    ensures InPlace(CteParts(c, |before|), before + Params(c) + after) && Meant(CteParts(c, |before|)) == MeantCte(c)
    ensures AllUntouched(CteParts(c, |before|)) <==> UntouchedCte(c, |before|)
  {
    match c
    case Unnest(_, _, _) => UnnestInPlace(c, before, after);
    case Simple(_, _) => SimpleInPlace(c, before, after);
    case Raw(_, _, _, _, _, _) =>
      RawInPlace(c);
      MovedInPlace(RawParts(c), before, Params(c), after);
      MeantMoved(RawParts(c), |before|);
      RawUntouched(c, |before|);
  }

  /**
   A CTE's fragment, wherever it stands, says under the whole array what it says under its own, if and
   only if nothing that is moved hides a dollar sign before a digit.
   */
  lemma FragmentBinds(c: Cte, before: seq<Datum>, after: seq<Datum>)
    requires CompleteCte(c)
    ensures var all := before + Params(c) + after;
      && (Says(Fragment(c, |before|), all) == MeantCte(c) <==> UntouchedCte(c, |before|))
      && Closed(Fragment(c, |before|), |all|)
  {
    CteLinked(c, |before|);
    CteInPlace(c, before, after);
    FragmentSpelled(c, |before|);
    PartsSay(CteParts(c, |before|), before + Params(c) + after);
  }

  /** The spliced step reads its own values and the depth limit its parameter, under the same condition. */
  lemma StepBinds(c: Cte)
    requires c.Raw? && CompleteCte(c)
    ensures Says(StepSql(c), Params(c)) == MeantStep(c) <==> c.base.params == [] || Open(c.step.sql)
    ensures Closed(StepSql(c), |Params(c)|)
  {
    StepLinked(c);
    StepInPlace(c);
    StepSpelled(c);
    PartsSay(StepParts(c), Params(c));
  }

  // --- the statement ---------------------------------------------------------------------------------------

  lemma {:induction false} ListInPlace(cs: seq<Cte>, after: seq<Datum>)
    requires forall c | c in cs :: CompleteCte(c)
    ensures InPlace(ListParts(cs), AllParams(cs) + after) && Meant(ListParts(cs)) == MeantList(cs)
    ensures AllUntouched(ListParts(cs)) <==> UntouchedList(cs)
  {
    if cs != [] {
      var front, last := cs[..|cs| - 1], cs[|cs| - 1];
      var before, own := AllParams(front), Params(last);
      var all := AllParams(cs) + after;
      var sep: Parted := if front == [] then [] else [Literal(", ")];
      assert all == before + (own + after) == before + own + after;
      ListInPlace(front, own + after);
      CteInPlace(last, before, after);
      FixedTexts();
      LiteralInPlace(", ", all);
      InPlaceBoth(ListParts(front), sep, all);
      InPlaceBoth(ListParts(front) + sep, CteParts(last, |before|), all);
      UntouchedBoth(ListParts(front), sep);
      UntouchedBoth(ListParts(front) + sep, CteParts(last, |before|));
      MeantOfOne(Literal(", "));
      MeantOfBoth(ListParts(front), sep);
      MeantOfBoth(ListParts(front) + sep, CteParts(last, |before|));
    }
  }

  lemma TailInPlace(cs: seq<Cte>, outer: Query)
    requires CompleteQuery(outer)
    ensures var tail := Part(outer.sql, |AllParams(cs)|, outer.params);
      && InPlace([tail], AllParams(cs) + outer.params)
      && (AllUntouched([tail]) <==> AllParams(cs) == [] || Open(outer.sql))
      && Meant([tail]) == MeantQuery(outer)
  {
    var tail := Part(outer.sql, |AllParams(cs)|, outer.params);
    var all := AllParams(cs) + outer.params;
    OwnSlice(AllParams(cs), outer.params, []);
    assert all + [] == all;
    assert tail in [tail];
    MeantOfOne(tail);
  }

  lemma StatementInPlace(cs: seq<Cte>, outer: Query)
    requires (forall c | c in cs :: CompleteCte(c)) && CompleteQuery(outer)
    ensures InPlace(StatementParts(cs, outer), AllParams(cs) + outer.params)
    ensures Meant(StatementParts(cs, outer)) == MeantStatement(cs, outer)
    ensures AllUntouched(StatementParts(cs, outer)) <==> UntouchedStatement(cs, outer)
  {
    var tail := Part(outer.sql, |AllParams(cs)|, outer.params);
    TailInPlace(cs, outer);
    if cs != [] {
      var word, space := Literal<Datum>(Keyword(Recursive(cs))), Literal<Datum>(" ");
      var all := AllParams(cs) + outer.params;
      KeywordReads(Recursive(cs));
      FixedTexts();
      ListInPlace(cs, outer.params);
      OneInPlace(word, all);
      OneInPlace(space, all);
      AroundList(word, ListParts(cs), space, tail, all);
      KeywordAsMeant(cs, outer);
    }
  }

  lemma KeywordAsMeant(cs: seq<Cte>, outer: Query)
    requires cs != []
    ensures MeantStatement(cs, outer)
            == Lit(Keyword(Recursive(cs))) + MeantList(cs) + Lit(" ") + MeantQuery(outer)
  {
    assert Keyword(Recursive(cs)) == if exists c | c in cs :: c.Raw? then "WITH RECURSIVE " else "WITH ";
  }

  lemma AroundList(word: Part<Datum>, list: Parted, space: Part<Datum>, tail: Part<Datum>, all: seq<Datum>)
    requires InPlace([word], all) && InPlace(list, all) && InPlace([space], all) && InPlace([tail], all)
    requires AllUntouched([word]) && AllUntouched([space])
    ensures var ps := [word] + list + [space, tail];
      && InPlace(ps, all) && (AllUntouched(ps) <==> AllUntouched(list) && AllUntouched([tail]))
      && Meant(ps) == Meant([word]) + Meant(list) + Meant([space]) + Meant([tail])
  {
    var front := [word] + list;
    assert [space, tail] == [space] + [tail];
    Associative(front, [space], [tail]);
    InPlaceBoth([word], list, all);
    InPlaceBoth(front, [space], all);
    InPlaceBoth(front + [space], [tail], all);
    UntouchedBoth([word], list);
    UntouchedBoth(front, [space]);
    UntouchedBoth(front + [space], [tail]);
    MeantOfBoth([word], list);
    MeantOfBoth(front, [space]);
    MeantOfBoth(front + [space], [tail]);
  }

  /**
   For any list of CTEs and any outer query: read under the concatenated parameters, the statement
   says what each part says under its own parameters, if and only if no text that stands behind
   parameters hides a dollar sign before a digit in quotes or words. Every placeholder has a value.
   */
  lemma StatementBinds(cs: seq<Cte>, outer: Query)
    requires (forall c | c in cs :: CompleteCte(c)) && CompleteQuery(outer)
    ensures var q := Statement(cs, outer);
      && (Says(q.sql, q.params) == MeantStatement(cs, outer) <==> UntouchedStatement(cs, outer))
      && Closed(q.sql, |q.params|)
  {
    StatementLinked(cs, outer);
    StatementInPlace(cs, outer);
    StatementSpelled(cs, outer);
    PartsSay(StatementParts(cs, outer), AllParams(cs) + outer.params);
  }

  /** Behind a parameter a hidden dollar sign is not left alone. */
  lemma OuterTouched(c: Cte, outer: Query)
    requires Params(c) != [] && !Open(outer.sql)
    ensures !UntouchedStatement([c], outer)
  {
    assert AllParams([c]) == Params(c) by { assert [c][..0] == []; }
  }

  /** An outer query that names a column `a$1` asks for `a$2` once a CTE with a parameter stands before it. */
  lemma OuterNameExample(v: Datum)
    ensures var cs := [Simple("c", Query("SELECT $1", [v]))];
      var outer := Query("SELECT " + Deparser.Quote("a$1", '"'), []);
      var q := Statement(cs, outer);
      && (forall c | c in cs :: CompleteCte(c)) && CompleteQuery(outer)
      && Says(q.sql, q.params) != MeantStatement(cs, outer)
  {
    SelectOne(v);
    SelectDollar();
    OuterNameSays(Simple("c", Query("SELECT $1", [v])), Query("SELECT " + Deparser.Quote("a$1", '"'), []));
  }

  lemma OuterNameSays(c: Cte, outer: Query)
    requires CompleteCte(c) && CompleteQuery(outer) && Params(c) != [] && !Open(outer.sql)
    ensures forall x | x in [c] :: CompleteCte(x)
    ensures Says(Statement([c], outer).sql, Statement([c], outer).params) != MeantStatement([c], outer)
  {
    OuterTouched(c, outer);
    StatementBinds([c], outer);
  }

  lemma SelectIsWord()
    ensures Quiet("SELECT ") && Fenced("SELECT ") && "SELECT " + "$1" == "SELECT $1"
  {
    PlainIsQuiet("SELECT ");
  }

  lemma SelectOne(v: Datum)
    ensures CompleteQuery(Query("SELECT $1", [v]))
  {
    SelectIsWord();
    SingleText(0, v);
    ReadJoint("SELECT ", "$1");
    WithinBoth(Reading("SELECT ", Plain), Reading("$1", Plain), 1);
    assert Closed("SELECT ", 1) by { WiderWithin(Reading("SELECT ", Plain), 0, 1); }
  }

  lemma WiderWithin(cs: seq<Chunk>, m: nat, n: nat)
    requires Within(cs, m) && m <= n
    ensures Within(cs, n)
  {
  }

  lemma SelectDollar()
    ensures CompleteQuery(Query("SELECT " + Deparser.Quote("a$1", '"'), []))
    ensures !Open("SELECT " + Deparser.Quote("a$1", '"'))
  {
    var name := Deparser.Quote("a$1", '"');
    PlainIsQuiet("SELECT ");
    PlainIsQuiet("");
    QuotedNameReads("a$1", "");
    assert name + "" == name;
    DollarName();
    QuietBoth("SELECT ", name);
  }

  lemma WithReads()
    ensures Quiet("WITH ") && Fenced("WITH ") && Quiet(" as (") && Starter(" as (") && Fenced(" as (")
  {
    PlainIsQuiet("WITH ");
    PlainIsQuiet(" as (");
  }

  lemma SourceHeadReads(name: string)
    ensures var head := "WITH " + Deparser.QuoteIdent(name) + " as ("; Quiet(head) && Fenced(head)
    ensures Quiet(") ") && Starter(") ") && Fenced(") ")
  {
    WithReads();
    SourceCloseReads();
    NameIsQuiet(name);
    QuietBoth("WITH ", Deparser.QuoteIdent(name));
    QuietBoth("WITH " + Deparser.QuoteIdent(name), " as (");
  }

  lemma SourceCloseReads()
    ensures Quiet(") ") && Starter(") ") && Fenced(") ")
  {
    PlainIsQuiet(") ");
  }

  function SourceParts(query: Query, name: string, source: Query): Parted {
    [Literal("WITH " + Deparser.QuoteIdent(name) + " as ("), Part(source.sql, 0, source.params)]
    + [Literal(") "), Part(query.sql, |source.params|, query.params)]
  }

  lemma SourceSpelled(query: Query, name: string, source: Query)
    ensures Text(SourceParts(query, name, source)) == PrependSourceCte(query, name, source).sql
  {
    var head := Literal<Datum>("WITH " + Deparser.QuoteIdent(name) + " as (");
    var a, b := Part(source.sql, 0, source.params), Part(query.sql, |source.params|, query.params);
    TextOfTwo(head, a);
    TextOfTwo(Literal(") "), b);
    TextOfBoth([head, a], [Literal(") "), b]);
    Associative(Rendered(head) + Rendered(a), ") ", Rendered(b));
  }

  lemma TextOfTwo(a: Part<Datum>, b: Part<Datum>)
    ensures Text([a, b]) == Rendered(a) + Rendered(b) && Meant([a, b]) == Says(a.text, a.own) + Says(b.text, b.own)
  {
    assert [a, b][1..] == [b];
    TextOfOne(b);
    MeantOfOne(b);
  }

  lemma SourceInPlace(query: Query, name: string, source: Query)
    requires CompleteQuery(query) && CompleteQuery(source)
    ensures var ps := SourceParts(query, name, source);
      && Linked(ps) && InPlace(ps, source.params + query.params)
      && (AllUntouched(ps) <==> source.params == [] || Open(query.sql))
      && Meant(ps) == Lit("WITH " + Deparser.QuoteIdent(name) + " as (") + MeantQuery(source) + Lit(") ") +
          MeantQuery(query)
  {
    var head, mid := Literal<Datum>("WITH " + Deparser.QuoteIdent(name) + " as ("), Literal<Datum>(") ");
    var a, b := Part(source.sql, 0, source.params), Part(query.sql, |source.params|, query.params);
    var all := source.params + query.params;
    SourceHeadReads(name);
    LinkedPair(head, a);
    LinkedPair(mid, b);
    LinkedBoth([head, a], [mid, b]);
    assert all[0..|source.params|] == source.params;
    assert all[|source.params|..|source.params| + |query.params|] == query.params;
    OneInPlace(head, all);
    OneInPlace(a, all);
    OneInPlace(mid, all);
    OneInPlace(b, all);
    assert [head, a] == [head] + [a];
    AroundList(head, [a], mid, b, all);
  }

  /** One source CTE in front of a finished statement. */
  lemma PrependedBinds(query: Query, name: string, source: Query)
    requires CompleteQuery(query) && CompleteQuery(source)
    ensures var q := PrependSourceCte(query, name, source);
      && (Says(q.sql, q.params) ==
          Lit("WITH " + Deparser.QuoteIdent(name) + " as (") + MeantQuery(source) + Lit(") ") + MeantQuery(query)
          <==> source.params == [] || Open(query.sql))
      && Closed(q.sql, |q.params|)
  {
    SourceInPlace(query, name, source);
    SourceSpelled(query, name, source);
    PartsSay(SourceParts(query, name, source), source.params + query.params);
  }
}
