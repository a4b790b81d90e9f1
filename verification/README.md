# Verification of the PostgreSQL adapter's query compiler

A Dafny model of `packages/adapter-pgsql`: how conditions become PostgreSQL AST nodes and SQL text, how
separately compiled fragments are put together without mixing up their parameters, how names are
allocated below the 63-byte identifier limit, how prepared statements are admitted, and five
self-contained algorithms around them (projection mapping, include merging, error classification, scratch
relations, quoted type names). Read the files in this order.

| file | what it models |
|---|---|
| `Ast.dfy`, `Semantics.dfy` | nodes, and their three-valued meaning over a database, a parameter array and the rows in scope (section 6.34 of ISO/IEC 9075-2:2003) |
| `Deparser.dfy`, `Lexer.dfy`, `Printed.dfy`, `Parser.dfy`, `PrintedTokens.dfy` | the printer, and a reference lexer and precedence parser after sections 4.1.1 to 4.1.6 of the PostgreSQL manual; identifiers are cut to 63 bytes |
| `RoundTrip.dfy`, `ParsedTrees.dfy`, `ParserReads.dfy`, `ExactPrinting.dfy`, `CutNames.dfy`, `FlatMeaning.dfy` | printable trees read back; whatever the parser returns has the parentheses it needs; so the trees that read back are exactly the printable ones; long names; the meaning of what is read |
| `Conditions.dfy`, `ConditionCompiler.dfy` | intents, their meaning stated without SQL, and the compiler: as a function, and as a class whose methods are proved equal to it |
| `ConditionMeaning.dfy`, `Relations.dfy`, `Pipeline.dfy`, `Captured.dfy` | compiled conditions mean what the intents mean; what relation predicates ask of rows and foreign keys; compile, print, parse and evaluate together; a condition whose alias the server cuts |
| `Acceptance.dfy`, `Refusals.dfy`, `Junctions.dfy` | which conditions compile, why the others are refused, and where a junction table is met |
| `ParameterStates.dfy`, `Subqueries.dfy` | one condition under different parameter states, subquery protocols, the upsert guard |
| `Placeholders.dfy`, `Renumbering.dfy`, `JsonTree.dfy`, `JsonEncoding.dfy`, `JsonReading.dfy`, `Joins.dfy` | renumbering on text and on trees, what the printer reads in a tree, and the joins spliced |
| `ResolvedConditions.dfy`, `ResolvedAcceptance.dfy`, `ResolvedMeaning.dfy`, `CompiledJoins.dfy` | the compiler of resolved conditions: its parameters, what it accepts, and its meaning; the joins whose ON it compiles |
| `SqlText.dfy`, `Parts.dfy`, `Ctes.dfy`, `CteMeaning.dfy` | reading SQL text with quotes and words, texts put together from renumbered parts, and the WITH statements assembled that way |
| `PreparedStatements.dfy`, `Admissions.dfy` | the registry, over every run of admit, confirm and abort; when it gives out a name |
| `Names.dfy`, `Aliases.dfy` | truncation, transport and presence labels, subquery and EXISTS aliases |
| `Projections.dfy`, `Includes.dfy`, `Errors.dfy`, `Scratch.dfy`, `DbTypes.dfy` | the self-contained algorithms |

Code that updates state is a class or a loop proved against a specification function; the theorems are
about the specification functions. A thrown error is an `Err`.

## Where the code falls short of its promise

Each is a concrete input together with the exact condition under which the promise holds.

- The printer's list of reserved words lacks `authorization`, `binary`, `collation` and `concurrently`, so
  those four names are printed bare (`ExactPrinting.ReservedColumnExample`). A column reads back exactly
  when its first name is not one of them and the server cuts none of its names
  (`ExactPrinting.ColumnRoundTrip`).
- AND, OR, NOT and IS NULL expressions get no parentheses as operands of operators, and nothing gets
  parentheses as an operand of BETWEEN or IS NULL or on the left of IN, ANY and ALL
  (`ExactPrinting.UnparenthesizedOperandExample`). A tree reads back
  exactly when every operand that stands without parentheses reaches the level of its place
  (`ExactPrinting.ParseDeparse`, with `PrintedTokens.Printable`); a null check on the left of IS DISTINCT
  FROM does (`ExactPrinting.UnneededParenthesesExample`). Everything the condition compiler builds from
  legible names is printable. Reading back is by the reference parser, which refuses three forms that
  PostgreSQL reads and the compiler never builds: `x BETWEEN a < b AND c`, `x IN (1) IN (2)` and
  `x = ANY (a) = ANY (b)`; trees that print such forms do not count as printable.
- Renumbering SQL text also renumbers `$` followed by a digit inside quoted names, literals and words
  (`Renumbering.ForeignPlaceholderExample`, `Ctes.DollarNameExample`, `CteMeaning.OuterNameExample`).
  Identifier validation accepts such names. A statement says what its parts say exactly when no part that
  stands behind parameters hides one (`CteMeaning.StatementBinds`, `SqlText.ShiftedFragmentSays`,
  `Ctes.RawNameSurvives`, `Renumbering.TextRenumberingAgrees`).
- EXISTS aliases are not fitted to 63 bytes. They are new names to the server, whenever the number the
  search starts from and the names in scope add up to at most n, exactly when the table's name leaves room
  for `_exists_` and the digits of n (`Aliases.AlwaysFreshExactly`). A table of 63 bytes that is related to
  itself is captured (`Aliases.LongTableExample`), and its condition is evaluated as another one
  (`Captured.SelfRelationReadsDifferently`). As the root of a nested plan such a table keeps its name, which
  reads like the reserved alias (`Aliases.RootAliasIsCaptured`; exactly so: `Aliases.RootAliasToServer`).
- The pattern that finds a type modifier does not match across line terminators, so the schema of a type
  whose schema or name contains one is not stripped when a modifier follows
  (`DbTypes.LineTerminatorExample`, exactly so: `DbTypes.StripKeepsBareType`).

The second capacity check of `admit` can never fire (`PreparedStatements.SecondCapacityCheckIsDead`).

## Model

| member | source | states |
|---|---|---|
| Pipeline.PipelinePreservesMeaning | packages/adapter-pgsql/src/condition-compiler-factory.ts:1310-1351 | whatever condition with legible names compiles, from any parameter state, prints to SQL that parses, and what the server reads, names cut to 63 bytes, evaluates under the final parameter array to the intent's three-valued meaning |
| ConditionMeaning.CompileMeans | packages/adapter-pgsql/src/condition-compiler-factory.ts:911-939 | the compiled node has the intent's meaning under every array that carries the values bound on the way, empty AND and OR and unwrapped singletons included |
| ConditionMeaning.NestMeans | packages/adapter-pgsql/src/condition-compiler-factory.ts:830-852 | for a path of any length and any database, the nested EXISTS chain is true exactly when some row reached over all hops satisfies the condition; negated, exactly when none does |
| ConditionMeaning.FilterIsNest | packages/adapter-pgsql/src/condition-compiler-factory.ts:585-665 | the chain chosen for some, none and every has the meaning of that mode: some row true, no row true, no row false |
| ConditionMeaning.VacuousEveryIsTheChain | packages/adapter-pgsql/src/condition-compiler-factory.ts:598-660 | the TRUE returned for every without a condition is what the unshortened chain means on every database |
| Relations.FilterMeansRows | packages/adapter-pgsql/src/condition-compiler-factory.ts:777-828 | a relation filter asks the database for rows along its path, each agreeing with the one before it on foreign and referenced key, the foreign key being the source's for belongsTo and the target's otherwise: some for one that makes the condition true, none for no such row, every for none that makes it false |
| Relations.RelatedMeansRows | packages/adapter-pgsql/src/relation-keys.ts:10-55 | an exists predicate asks for such a row of the one relation it names, notExists for none |
| Relations.FilterMeansConvention | packages/adapter-pgsql/src/handlers/where/exists.ts:170-200 | without a model the row's derived key column must agree with the source's id, in every mode |
| Relations.ResolvesExactly | packages/adapter-pgsql/src/condition-compiler-factory.ts:85-96 | a name resolves to the first relation declared under it on the source table, else to the only one that leads to a table of that name, and to nothing else |
| Acceptance.AcceptedExactly | packages/adapter-pgsql/src/condition-compiler-factory.ts:563-853 | compilation succeeds if and only if every hop is declared and usable, fields and operators are well formed, values fit and no junction table is crossed; success binds exactly the condition's values in order |
| Acceptance.CompilesExactly | packages/adapter-pgsql/src/condition-compiler-factory.ts:911-939 | the same for the compiler itself, at any depth and from any parameter state |
| Refusals.RefusalsTellWhy | packages/adapter-pgsql/src/condition-compiler-factory.ts:911-939 | the error of a refused condition names a flaw that some part of it has on the table it is about, and the parameter limit is named only where the values do not fit |
| Refusals.TopLevelTellsWhy | packages/adapter-pgsql/src/condition-compiler-factory.ts:1282-1301 | a junction table is named whenever one is crossed, before anything else, and only then |
| Acceptance.WalkIsExact | packages/adapter-pgsql/src/condition-compiler-factory.ts:141-177 | the junction check reaches the end of a path exactly when every hop is declared and none is many-to-many |
| Junctions.CrossesExactly | packages/adapter-pgsql/src/condition-compiler-factory.ts:141-177 | a condition is refused for a junction table if and only if some relation predicate in it, on the table it is reached with over declared foreign keys, has a many-to-many hop behind declared ones |
| Acceptance.FilterFollowsForeignKeys | packages/adapter-pgsql/src/condition-compiler-factory.ts:777-828 | with a model, a relation filter that compiles follows a declared foreign key at every hop; for belongsTo the foreign key columns are the source's and the referenced ones the target's, for any other kind the other way round |
| Captured.SelfRelationReadsDifferently | packages/adapter-pgsql/src/handlers/where/exists.ts:225-230 | with a table of 63 bytes related to itself, the server evaluates to false a condition that means true |
| Pipeline.CompileIsPrintable | packages/adapter-pgsql/src/pgsql-deparser.ts:443-573 | every compiled condition whose names are legible is printable, and the EXISTS aliases it allocates fit |
| Semantics.NotInIsAllDifferent | packages/adapter-pgsql/src/handlers/where/in.ts:185-199 | `<> ALL` over an array is NOT IN, nulls included |
| Semantics.LeastAndGreatest | packages/adapter-pgsql/src/condition-compiler-factory.ts:911-932 | AND is the least of its truth values and OR the greatest, false before unknown before true, and the empty lists are true and false |
| Ast.SpelledAlike | packages/adapter-pgsql/src/condition-compiler-factory.ts:241-255 | only `!=` and `<>` are two spellings of one operator |
| ConditionCompiler.FollowPath | packages/adapter-pgsql/src/condition-compiler-factory.ts:777-828 | the hop loop collects exactly the resolved path, or stops at the first undeclared hop; which columns are on which side is stated by Acceptance.FilterFollowsForeignKeys and Relations.FilterMeansRows |
| ConditionCompiler.NestChain | packages/adapter-pgsql/src/condition-compiler-factory.ts:830-850 | building from the last hop to the first gives the chain with only its outermost link negated |
| ConditionCompiler.Compiler.Bind | packages/adapter-pgsql/src/param-ref.ts:59-69 | numbers and records one value, or refuses beyond 65535 |
| ConditionCompiler.Compiler.BindAll | packages/adapter-pgsql/src/handlers/where/in.ts:185-199 | binds a list in order or fails as the specification does |
| ConditionCompiler.Compiler.CompileComparison | packages/adapter-pgsql/src/handlers/where/literal-null.ts:6-32 | literal null becomes a null check or is refused, anything else is bound; outcome and new state as specified |
| ConditionCompiler.Compiler.CompileRange | packages/adapter-pgsql/src/handlers/where/between.ts:26-62 | binds low before high and builds BETWEEN |
| ConditionCompiler.Compiler.CompileMembership | packages/adapter-pgsql/src/handlers/where/in.ts:120-199 | empty lists are constants, arrays bind once, lists bind each element |
| ConditionCompiler.Compiler.CompileList | packages/adapter-pgsql/src/condition-compiler-factory.ts:911-932 | the loop over AND and OR parts compiles in order and wraps as specified |
| ConditionCompiler.Compiler.CompileFilter | packages/adapter-pgsql/src/condition-compiler-factory.ts:563-853 | a relation filter is refused, shortened or lowered to the chain that, by Relations.FilterMeansRows, asks for the rows along the path |
| ConditionCompiler.Compiler.CompileExists | packages/adapter-pgsql/src/handlers/where/exists.ts:158-240 | allocates a fresh alias, correlates by keys and conjoins the inner condition |
| ConditionCompiler.Compiler.CompileIntent | packages/adapter-pgsql/src/condition-compiler-factory.ts:911-939 | every kind of intent yields the node that, by ConditionMeaning.CompileMeans and Relations.RelatedMeansRows, has its meaning, with the specified state, or the error that, by Refusals.RefusalsTellWhy, names a flaw |
| ConditionCompiler.Compiler.CompileTopLevel | packages/adapter-pgsql/src/condition-compiler-factory.ts:1282-1301 | junction tables are refused before anything is compiled |
| ExactPrinting.ParseDeparse | packages/adapter-pgsql/src/pgsql-deparser.ts:443-573 | for every well-sorted tree, parsing the printed SQL gives the tree back, up to flattening nested lists of one operator, if and only if every unparenthesized operand reaches the level of its place and every name is read as it is |
| ParserReads.ExprStands | packages/adapter-pgsql/src/pgsql-deparser.ts:443-573 | whatever tree can be read from printed SQL at all, each operand in it that binds too loosely for its place stands in parentheses |
| ExactPrinting.ColumnRoundTrip | packages/adapter-pgsql/src/pgsql-deparser.ts:296-306 | a column reads back if and only if its first name is not one of the four unlisted reserved words and all its names fit in 63 bytes |
| ExactPrinting.ReservedColumnExample | packages/adapter-pgsql/src/pgsql-deparser.ts:384-395 | a column called binary prints as a text that is no expression |
| ExactPrinting.UnparenthesizedOperandExample | packages/adapter-pgsql/src/pgsql-deparser.ts:452-465 | a concrete tree outside the domain reads back as another tree |
| ExactPrinting.UnneededParenthesesExample | packages/adapter-pgsql/src/pgsql-deparser.ts:452-465 | a null check on the left of IS DISTINCT FROM reads back without parentheses |
| CutNames.ServerReads | packages/adapter-pgsql/src/pgsql-deparser.ts:296-306 | with names of any length the server reads the tree with its names cut, if and only if that tree is printable |
| Printed.LexDeparse | packages/adapter-pgsql/src/pgsql-deparser.ts:443-573 | the printed text lexes to exactly the tokens of its pieces |
| Printed.PiecesText | packages/adapter-pgsql/src/pgsql-deparser.ts:376-395 | the token pieces of a node spell the printed text |
| Lexer.PrintedNameReadsBack | packages/adapter-pgsql/src/pgsql-deparser.ts:296-302 | every printed identifier lexes to one token that carries what the server keeps of the name, the name itself exactly if it fits in 63 bytes |
| Lexer.QuoteIdentInjective | packages/adapter-pgsql/src/pgsql-deparser.ts:296-302 | two names never print alike |
| Lexer.QuoteStringInjective | packages/adapter-pgsql/src/pgsql-deparser.ts:304-306 | two string constants never print alike |
| Lexer.NameTokenOf | packages/adapter-pgsql/src/pgsql-deparser.ts:296-302 | exactly the four unlisted reserved words lex as something other than a name |
| FlatMeaning.FlatMeans | packages/adapter-pgsql/src/pgsql-deparser.ts:551-573 | flattening nested AND and OR lists keeps the three-valued meaning, wherever operands are values and no lists of one |
| Placeholders.ScanShift | packages/adapter-pgsql/src/adapter-compiler-mutations.ts:150-155 | renumbering text moves every placeholder by the offset, changes nothing else and makes no new placeholder |
| SqlText.ShiftedFragmentSays | packages/adapter-pgsql/src/adapter-compiler-mutations.ts:150-155 | a renumbered fragment, read with quotes and words, says what it said if and only if it was not moved or hides no dollar sign before a digit |
| Parts.PartsSay | packages/adapter-pgsql/src/adapter-compiler-recursive.ts:1096-1124 | the same for any concatenation of fragments, each with its own values at its own place in the array |
| Renumbering.TextRenumberingAgrees | packages/adapter-pgsql/src/compiler.ts:489-516 | renumbering the printed text equals printing the renumbered tree if and only if the offset is zero or no name or literal has a dollar sign before a digit |
| Renumbering.ForeignPlaceholderExample | packages/adapter-pgsql/src/adapter-compiler-recursive.ts:1096-1100 | a concrete tree on which the two ways differ |
| Renumbering.RenumberTwice | packages/adapter-pgsql/src/compiler.ts:489-516 | on typed nodes, renumbering twice is renumbering by the sum |
| JsonTree.RenumberTwice | packages/adapter-pgsql/src/compiler.ts:489-516 | the kind-blind walk is additive in the offset, zero offsets included |
| JsonTree.MaxIsLargest | packages/adapter-pgsql/src/compiler.ts:523-544 | the maximum is the largest number present and zero only if there is none |
| JsonTree.MaxShifts | packages/adapter-pgsql/src/compiler.ts:523-544 | the maximum shifts exactly with the tree and stays zero where there is no placeholder |
| JsonTree.FragmentKeepsItsValues | packages/adapter-pgsql/src/compiler.ts:489-516 | a shifted tree reads its own values if and only if nothing was before it or no ParamRef wrapper has a second key |
| JsonEncoding.EncodeWalks | packages/adapter-pgsql/src/compiler.ts:494-516 | on every node kind the kind-blind walk finds exactly the node's placeholders and yields the typed renumbering |
| JsonReading.ReadsEncoded | packages/adapter-pgsql/src/pgsql-deparser.ts:340-573 | looking at keys and fields by name as the printer does, the JSON tree of any node reads as that node |
| JsonReading.ReadsShifted | packages/adapter-pgsql/src/compiler.ts:489-516 | and after the kind-blind renumbering it reads as the renumbered node |
| Joins.GuardIsOwnership | packages/adapter-pgsql/src/compiler.ts:2873-2888 | the guard accepts an ON exactly when each of its placeholders has a value in its own list |
| Joins.StepKeepsValues | packages/adapter-pgsql/src/compiler.ts:2854-2899 | an accepted join adds the node Meant describes and disturbs no earlier fragment; what that node is, field by field, is stated by Joins.StepReadsAsTheJoin |
| Joins.StepBuildsTheJoin | packages/adapter-pgsql/src/compiler.ts:2854-2899 | after an accepted join the FROM tree has the join type of the decision, LEFT exactly for a left join and INNER otherwise, the tree from before as left side and the decision's range and ON, shifted behind the parameters it joins; the array grows by the join's own and the index with it |
| Joins.StepReadsAsTheJoin | packages/adapter-pgsql/src/compiler.ts:2854-2899 | read under the whole array that node joins the old tree, read under the old array, with range and ON read under their own array |
| Joins.RunKeepsValues | packages/adapter-pgsql/src/compiler.ts:2854-2899 | after any accepted sequence of joins the statement under its array is the joins read under their own arrays |
| Joins.EmptyListIsUnchecked | packages/adapter-pgsql/src/compiler.ts:2873-2888 | an ON with an empty list is always accepted as it is, and keeps its meaning if and only if no placeholder falls on a parameter of the statement |
| ResolvedConditions.CompileUses | packages/adapter-pgsql/src/resolved-condition-compiler.ts:505-801 | whatever a resolved condition is made of, it uses every number given out for it exactly once and records one value for each |
| ResolvedConditions.FilterOutOfOrderExample | packages/adapter-pgsql/src/resolved-condition-compiler.ts:722-790 | a relation with a default filter and a condition: the second number stands in front of the first |
| ResolvedAcceptance.CompileDecided | packages/adapter-pgsql/src/resolved-condition-compiler.ts:505-801 | a resolved condition compiles if and only if no plain null is compared by order, every range is correlated by a column pair and the values, those of default filters included, fit below 65535; it takes one number for each, and the error names which of these failed |
| ResolvedMeaning.CompileMeans | packages/adapter-pgsql/src/resolved-condition-compiler.ts:505-801 | from any parameter state the compiled node has the condition's three-valued meaning under every array carrying its values; a relation over any number of ranges is true exactly when rows follow its keys through all of them, each passing its default filter, to one that makes the condition true (none: no such row; every: none that makes it false) |
| CompiledJoins.CompileJoinIntents | packages/adapter-pgsql/src/adapter-compiler-select.ts:308-521 | the loop hands over every join in order, or refuses with the error of the first that does not compile, exactly when there is one |
| CompiledJoins.HandedExactly | packages/adapter-pgsql/src/adapter-compiler-select.ts:390-518 | a join is handed over if and only if its ON and default filter are sound in that sense and its arrays and values together fit |
| CompiledJoins.HandedReads | packages/adapter-pgsql/src/adapter-compiler-select.ts:390-518 | what is handed over keeps its join type and reads as the table under its alias, or as unnest over one placeholder for each column, cast to its type and named after it in the same order as the arrays; the ON reads as the compiled condition |
| CompiledJoins.TableOnIsTrueExactly | packages/adapter-pgsql/src/adapter-compiler-select.ts:437-485 | the ON of a table is true exactly where the key columns agree and both the explicit ON and the default filter are true |
| CompiledJoins.BatchOnMeans | packages/adapter-pgsql/src/adapter-compiler-select.ts:390-436 | the ON of unnested values, compiled behind their arrays, keeps its meaning under the arrays followed by its own values |
| CompiledJoins.HandedUsesItsValues | packages/adapter-pgsql/src/adapter-compiler-select.ts:251-306 | range and ON of a join handed over have exactly one placeholder for each value in its list, numbered from 1 |
| CompiledJoins.CompiledJoinsKeepTheirValues | packages/adapter-pgsql/src/adapter-compiler-select.ts:390-518 | any sequence of joins compiled this way, of tables and of unnested values, is accepted, and each keeps the values it was compiled with |
| Joins.PlanCompiler.CompileJoinDecision | packages/adapter-pgsql/src/compiler.ts:2854-2899 | new parameters, index and FROM tree of the join that Joins.StepBuildsTheJoin describes, or a refusal that changes nothing |
| ParameterStates.CompileInOrder | packages/adapter-pgsql/src/condition-compiler-factory.ts:475-508 | a compiled condition uses each number given out once, in order from left to right |
| ParameterStates.CompileShifts | packages/adapter-pgsql/src/adapter-compiler-mutations.ts:1153-1171 | compiling after k parameters equals compiling before them and renumbering by k |
| Subqueries.ProtocolsAgree | packages/adapter-pgsql/src/condition-subquery.ts:247-310 | the detached and the shared protocol accept the same uncorrelated bodies and end with the same placeholders, array and index |
| Subqueries.SameScopeSameBody | packages/adapter-pgsql/src/condition-subquery.ts:247-310 | in one scope, with no alias issued before, even the compiled body is the same |
| Subqueries.BuildDetached | packages/adapter-pgsql/src/condition-subquery.ts:247-310 | the body compiled in a fresh state seeded with the offset, or a refusal of correlation |
| Subqueries.RefersExactly | packages/adapter-pgsql/src/intent-to-decisions.ts:345-361 | a condition counts as correlated if and only if some comparison in it, at any depth, reads a column of an enclosing query |
| Subqueries.Receive | packages/adapter-pgsql/src/condition-compiler-factory.ts:537-548 | pushing the returned values one by one and advancing the index appends exactly them |
| Subqueries.SplicedGuardIsInPlace | packages/adapter-pgsql/src/adapter-compiler-mutations.ts:1153-1171 | the guard compiled apart, shifted and appended is the guard compiled in place |
| Subqueries.CompileActionWhere | packages/adapter-pgsql/src/adapter-compiler-mutations.ts:1153-1171 | the callback returns that guard and advances the caller's state accordingly, or changes nothing |
| CteMeaning.FragmentBinds | packages/adapter-pgsql/src/adapter-compiler-recursive.ts:807-898 | a CTE's fragment, wherever it stands, says under the whole array what its author meant, if and only if no text of it that is moved hides a dollar sign before a digit; for unnest that is the i-th array cast to the i-th type under the i-th name, selected under that name |
| CteMeaning.ColumnYieldsItsArray | packages/adapter-pgsql/src/adapter-compiler-recursive.ts:979-1003 | asked for a column, each row of an unnest CTE yields the element of that column's own array |
| CteMeaning.MentionsWhereExactly | packages/adapter-pgsql/src/adapter-compiler-recursive.ts:1120-1124 | the depth limit is joined by AND exactly when the word WHERE stands in the step, in any case and not inside a longer word |
| CteMeaning.StepBinds | packages/adapter-pgsql/src/adapter-compiler-recursive.ts:1096-1125 | the spliced step and the depth limit each read their own values, under the same condition |
| CteMeaning.StatementBinds | packages/adapter-pgsql/src/adapter-compiler-recursive.ts:786-948 | for any list of CTEs and any outer query the assembled statement says what its parts say between WITH or, exactly if some CTE is raw, WITH RECURSIVE, and the set operator asked for, if and only if no part behind parameters hides a dollar sign before a digit; every placeholder lies in 1..length |
| CteMeaning.OuterNameExample | packages/adapter-pgsql/src/adapter-compiler-recursive.ts:917-948 | an outer query whose quoted column name is renumbered, so that the statement says something else |
| CteMeaning.PrependedBinds | packages/adapter-pgsql/src/adapter-compiler-mutations.ts:217-233 | the same law for one source CTE in front of a finished statement |
| Ctes.RawNameSurvives | packages/adapter-pgsql/src/adapter-compiler-recursive.ts:848-855 | a valid raw CTE name survives renumbering if and only if no parameter precedes it or it has no dollar sign before a digit |
| Ctes.DollarNameExample | packages/adapter-pgsql/src/validate.ts:279-283 | a name that validation accepts and renumbering changes |
| Ctes.RefusesTheFirst | packages/adapter-pgsql/src/validate.ts:255-300 | a list of CTEs is refused exactly for the first name that is empty, longer than 63, starts with a digit or dollar sign, or has any character but letters, digits, underscores and dollar signs |
| Ctes.BuildUnnestCte | packages/adapter-pgsql/src/adapter-compiler-recursive.ts:964-1025 | one array parameter for each column, numbered on from the state's index, in the text whose meaning CteMeaning.FragmentBinds states column by column |
| Ctes.CompileCteQuery | packages/adapter-pgsql/src/adapter-compiler-recursive.ts:786-948 | the assembly loop yields the specified statement and array, or the first invalid name |
| PreparedStatements.EveryRunIsConsistent | packages/adapter-pgsql/src/prepared-statements.ts:54-180 | after every run of admits, confirms and aborts from construction on the four fingerprint sets are disjoint, names and fingerprints are inverse, all sets are bounded, generations are disjoint and fresh, and capacity leaves no candidates |
| PreparedStatements.RunKeepsInv | packages/adapter-pgsql/src/prepared-statements.ts:54-180 | every such run keeps that invariant from any consistent state |
| PreparedStatements.AdmitKeepsInv | packages/adapter-pgsql/src/prepared-statements.ts:76-116 | one admit keeps that invariant, evictions and hash collisions included |
| PreparedStatements.SecondCapacityCheckIsDead | packages/adapter-pgsql/src/prepared-statements.ts:98-98 | a remembered candidate means there is capacity |
| PreparedStatements.NeverNamedAtFirstSight | packages/adapter-pgsql/src/prepared-statements.ts:76-96 | whatever was called before, a text never admitted before gets no name |
| PreparedStatements.ConfirmedNameIsPermanentAndExclusive | packages/adapter-pgsql/src/prepared-statements.ts:76-129 | after a confirmation every later admit of the fingerprint returns that name without a reservation, and no other fingerprint ever gets it |
| PreparedStatements.SettledReservationIsInert | packages/adapter-pgsql/src/prepared-statements.ts:119-147 | a reservation that was aborted or confirmed changes nothing ever after |
| PreparedStatements.AbortNeverTouchesConfirmed | packages/adapter-pgsql/src/prepared-statements.ts:131-147 | abort never releases a confirmed name |
| Admissions.AdmitNamesExactly | packages/adapter-pgsql/src/prepared-statements.ts:76-116 | in any consistent state a name is answered if and only if the text is confirmed, pending, or seen before with a derived name that nobody else owns |
| Admissions.AdmitGivesTheName | packages/adapter-pgsql/src/prepared-statements.ts:76-116 | it is the confirmed name without a reservation, else the pending or the derived name reserved for a live attempt under the next generation |
| Admissions.AdmitDisturbsNothing | packages/adapter-pgsql/src/prepared-statements.ts:76-116 | no admit touches the names, attempts or owners of other texts, nor takes an attempt or name away from its own |
| Admissions.FirstSightingIsRemembered | packages/adapter-pgsql/src/prepared-statements.ts:88-96 | with capacity left a new text becomes the latest candidate, and only the oldest goes to make room for it |
| Admissions.CollisionIsRejected | packages/adapter-pgsql/src/prepared-statements.ts:100-108 | a second sighting whose derived name somebody else owns gets no answer and ends among the rejected, and no name or attempt changes |
| Admissions.SecondSightingIsForgotten | packages/adapter-pgsql/src/prepared-statements.ts:97-116 | the second sighting takes the text off the candidates, and the last name takes all of them off |
| Admissions.ConfirmMakesPermanent | packages/adapter-pgsql/src/prepared-statements.ts:119-129 | confirming a live attempt makes its name the text's own and nothing else |
| Admissions.AbortReleasesTheLast | packages/adapter-pgsql/src/prepared-statements.ts:131-147 | aborting a live attempt takes back its generation, and the name exactly with the last one |
| Admissions.SecondSightingNames | packages/adapter-pgsql/src/prepared-statements.ts:76-129 | in any run a text that is seen twice, with capacity left, no eviction and no collision in between, is answered at the second sighting with its derived name, and confirming that answer makes the name permanent |
| PreparedStatements.PreparedStatementRegistry.Admit | packages/adapter-pgsql/src/prepared-statements.ts:76-116 | the class does exactly the step, and gives exactly the answer, that the lemmas of Admissions and PreparedStatements are about |
| PreparedStatements.PreparedStatementRegistry.Confirm | packages/adapter-pgsql/src/prepared-statements.ts:119-129 | the specified step |
| PreparedStatements.PreparedStatementRegistry.Abort | packages/adapter-pgsql/src/prepared-statements.ts:132-147 | the specified step |
| Names.TruncateIsLongestPrefix | packages/adapter-pgsql/src/column-metadata.ts:615-628 | truncation is the longest prefix in whole characters that fits |
| Names.TruncateIdentifier | packages/adapter-pgsql/src/column-metadata.ts:615-628 | the loop computes it |
| Names.FreshLabelIsFresh | packages/adapter-pgsql/src/include-payload-shape.ts:86-98 | the search ends in an unused label of at most 63 bytes |
| Names.TransportIsInjective | packages/adapter-pgsql/src/include-payload-shape.ts:84-98 | over any sequence of requests equal texts get equal labels and different texts different ones |
| Names.LabelAllocator.TransportLabel | packages/adapter-pgsql/src/include-payload-shape.ts:86-98 | returns the remembered label or records a fresh one |
| Names.LabelAllocator.PresenceLabel | packages/adapter-pgsql/src/include-payload-shape.ts:503-515 | the label fits and avoids every used and target label |
| Aliases.FreshAliasIsFresh | packages/adapter-pgsql/src/condition-subquery.ts:120-148 | the alias fits and differs from every taken name before and after the server truncates |
| Aliases.NoCapture | packages/adapter-pgsql/src/condition-subquery.ts:120-172 | however subqueries nest, extending the scope never meets a duplicate qualifier and each subquery gets a new name |
| Aliases.AliasRegistry.Allocate | packages/adapter-pgsql/src/condition-subquery.ts:120-148 | allocates the fresh alias and records it for the compilation |
| Aliases.RootAlias | packages/adapter-pgsql/src/compiler.ts:1976-1985 | the table's own name if it is free, else a fresh fitted alias |
| Aliases.RootAliasToServer | packages/adapter-pgsql/src/compiler.ts:1976-1985 | for a table whose name fits, the root alias fits, and it is a new name to the server if and only if no reserved name that is itself cut reads like it; among reserved names that fit it always is |
| Aliases.RootAliasIsCaptured | packages/adapter-pgsql/src/compiler.ts:1976-1985 | a table of 63 bytes whose EXISTS alias is reserved keeps its own name, which the server reads like that alias |
| Aliases.ExistsAlias | packages/adapter-pgsql/src/handlers/where/exists.ts:114-151 | the first unused numbered alias |
| Aliases.AlwaysFreshExactly | packages/adapter-pgsql/src/handlers/where/exists.ts:114-151 | whatever names that fit are in scope and whatever number the search starts from, both together at most n, the server takes the EXISTS alias for a new name, if and only if the table's name leaves room for the stem and the digits of n |
| Aliases.ShortTableAlias | packages/adapter-pgsql/src/handlers/where/exists.ts:114-151 | with that room the alias fits, and only a name in scope that is itself cut can read like it |
| Aliases.LongTableAlias | packages/adapter-pgsql/src/handlers/where/exists.ts:225-230 | for table names of 55 bytes or more it is a new name if and only if no name in scope reads like the table's name and the stem |
| Aliases.ExistsAliasesUnderTruncation | packages/adapter-pgsql/src/handlers/where/exists.ts:225-230 | two EXISTS aliases of one table stay different after truncation if and only if their numbers differ in the bytes the stem leaves |
| Aliases.LongTablesShareTheirAlias | packages/adapter-pgsql/src/handlers/where/exists.ts:225-230 | for table names of 55 bytes or more they are all alike |
| Aliases.SelfRelationIsCaptured | packages/adapter-pgsql/src/handlers/where/exists.ts:225-230 | a table of 63 bytes related to itself: its first alias already reads like the table |
| Projections.FinalizeProjections | packages/adapter-pgsql/src/column-metadata.ts:577-613 | refused exactly for the first returned name that two or more columns share and one asked for explicitly; otherwise exactly the names with one candidate are mapped, to its projection |
| Projections.SoleExactly | packages/adapter-pgsql/src/column-metadata.ts:580-611 | a returned name is mapped to a projection if and only if a single candidate of a single label comes back under it after the cut to 63 bytes, and it has that projection |
| Projections.ClashExactly | packages/adapter-pgsql/src/column-metadata.ts:592-608 | a returned name is refused if and only if two candidates come back under it and one of them has an explicit label |
| Projections.ComplaintNamesLabels | packages/adapter-pgsql/src/column-metadata.ts:596-607 | the error names the first label and the first that differs from it, or the only label there is |
| Projections.NamesByFirst | packages/adapter-pgsql/src/column-metadata.ts:585-591 | names are gone through in the order in which they are first produced, each once |
| Projections.GroupByReturnedName | packages/adapter-pgsql/src/column-metadata.ts:577-591 | candidates are grouped by truncated name in order of first appearance |
| Projections.PayloadOwners.ClaimPayloadKey | packages/adapter-pgsql/src/include-payload-shape.ts:35-52 | over any sequence of claims, refused exactly when a key would get a second identity, true for the first claim of a key |
| Includes.MergeKeeps | packages/adapter-pgsql/src/compiler.ts:324-425 | an accepted run keeps other decisions and first includes in order, each first include with everything of its path and choice taken up |
| Includes.MergeAcceptsExactly | packages/adapter-pgsql/src/compiler.ts:341-413 | merging is accepted if and only if, for the first include of each path and the later ones of its choice, join types agree, none at all counting as left, predicates are about the same two ranges, and the children merge in turn |
| Includes.MergeIsTidy | packages/adapter-pgsql/src/compiler.ts:341-368 | no path keeps a second include with the choice of its first |
| Includes.MergeIsIdempotent | packages/adapter-pgsql/src/compiler.ts:324-425 | merging again changes nothing |
| Includes.MergeInSteps | packages/adapter-pgsql/src/compiler.ts:414-419 | merging a merged list with more is merging everything at once |
| Includes.SurvivorIsMadeOf | packages/adapter-pgsql/src/compiler.ts:380-413 | the survivor has the ordered union of columns with the star absorbing, all conditions and conjuncts in order, and the first alias of each key |
| Includes.FoldColumns | packages/adapter-pgsql/src/compiler.ts:309-323 | a column is asked for after merging exactly when some merged include asks for it |
| Includes.FoldChildren | packages/adapter-pgsql/src/compiler.ts:414-419 | the children are those of all merged includes merged at once |
| Includes.MergeColumnLists | packages/adapter-pgsql/src/compiler.ts:309-323 | the loop computes the specified union |
| Includes.MergeDuplicateJoinIncludeDecisions | packages/adapter-pgsql/src/compiler.ts:324-425 | the loop with its path map computes the merge and ends on nested children |
| Errors.ErrorChain | packages/adapter-pgsql/src/expression-canonicalizer.ts:2659-2695 | on any cyclic graph it ends with every error reachable over cause, originalError, a defined cleanupError and the errors of an aggregate, exactly once, and nothing else |
| Errors.NestedIsHeld | packages/adapter-pgsql/src/expression-canonicalizer.ts:2675-2695 | an error is nested in another if and only if that is an object holding it over one of the four edges |
| Errors.HasOnlyExpressionSqlStateErrors | packages/adapter-pgsql/src/expression-canonicalizer.ts:2592-2642 | true if and only if no error reachable over those four edges is a transaction failure, some reachable error has none of them, and every such one is SQLSTATE class 22 or 42 |
| Scratch.ProjectedIsDesired | packages/adapter-pgsql/src/expression-canonicalizer.ts:2169-2229 | a projected column has the desired nullability and collation, an empty one counting as none; it keeps the live type if and only if it was there with the same type, by the written types and their schemas or by the kinds up to the names of the zoned timestamp, and with the collation written alike |
| Scratch.UniqueIsCounted | packages/adapter-pgsql/src/expression-canonicalizer.ts:2141-2146 | the map of columns by name loses none exactly when no name is repeated |
| Scratch.ProjectColumn | packages/adapter-pgsql/src/expression-canonicalizer.ts:2156-2194 | one column is added or altered to the specified one and no other changes |
| Scratch.DropUndesired | packages/adapter-pgsql/src/expression-canonicalizer.ts:2149-2154 | exactly the undesired columns are dropped |
| Scratch.CreateProjectedScratchRelation | packages/adapter-pgsql/src/expression-canonicalizer.ts:2128-2194 | the clone ends with exactly the desired column names, each projected |
| DbTypes.UnquoteQuoted | packages/adapter-pgsql/src/db-type.ts:424-448 | unquoting a quoted name gives the raw name back, whatever characters it has |
| DbTypes.QualifiedRoundTrip | packages/adapter-pgsql/src/db-type.ts:231-254 | the quoted qualified name splits into exactly its halves, and they unquote to the names |
| DbTypes.SplitOfJoined | packages/adapter-pgsql/src/db-type.ts:231-254 | any two identifiers joined by a dot split into the two again |
| DbTypes.SplitQualifiedIdentifier | packages/adapter-pgsql/src/db-type.ts:231-254 | the scan with its quote flag splits exactly the qualified names, into the identifiers around the dot |
| DbTypes.LineTerminatorExample | packages/adapter-pgsql/src/db-type.ts:501-511 | a schema that ends in a line feed is not stripped in front of a modifier |
| DbTypes.StripKeepsBareType | packages/adapter-pgsql/src/db-type.ts:501-511 | stripping leaves the bare type with modifier and array suffix exactly when there is no modifier or no line terminator in the names; otherwise the text comes back unchanged |

## Left out

- Conditions are those of a root WHERE, compiled against declared tables without column type casts: comparisons, null checks, BETWEEN, IN, AND, OR, NOT, exists and relation filters. LIKE, range and JSON operators, left-hand expressions, `any`, and scalar subqueries as right operands would add atoms of the same shape.
- Relation paths are lists of names; splitting a dotted relation name, includes inside EXISTS and recursive relation predicates are not modelled. Without a model the key columns are `id` and the derived foreign key.
- Pipeline.PipelinePreservesMeaning: asks that a dotted field names a range in scope, as the code relies on its callers for, and that names are legible: not empty, not cut by the server, and tables and leading column names not one of the four unlisted reserved words. The tables on the condition's own paths must leave room for EXISTS aliases numbered up to a bound that grows with its subqueries; without that room the property is false (`Captured.SelfRelationReadsDifferently`).
- ConditionMeaning.CompileMeans: the same condition on dotted fields.
- FlatMeaning.FlatMeans: asks that no AND or OR list of one stands where a value is asked for, because it would turn its element into a truth value; the compiler unwraps such lists.
- FROM items are printed without a schema.
- Resolved conditions have the same atoms; their columns are already addressed, and the parameter state they share is threaded through as a value. Subqueries, expressions, LIKE, range and JSON operators, and joins inside a relation condition are left out. A relation join without a default filter is handed over as key columns and owns no parameters.
- CteMeaning.StepBinds: claims the depth guard's parameter and its place at the end of the step, not that the guard binds the whole step condition, because that depends on a regular expression over SQL text. Such expressions are modelled by what they match.
- CteMeaning.StatementBinds: SQL text is read with single and double quotes and words; comments, dollar quoting and escape strings are not modelled. It asks that the quotes of every compiled query are closed and that each of its placeholders has a value.
- Names.FreshLabelIsFresh: asks for fewer than 2^53 names in use, because only then is the counter known to fit the label; the source counts in numbers that are exact up to there.
- Names.TransportIsInjective: the same bound on names in use.
- Aliases.FreshAliasIsFresh: the same bound on names in use.
- Aliases.NoCapture: the same bound, over all names in scope and all subqueries of a compilation.
- SHA-256 is an uninterpreted pair of functions that may collide.
- `getRelationIdentityPath` is a given path of each include; a missing list of conditions, aliases or children is an empty one.
- How two written types compare apart from their schemas, and which schema a type belongs to, are parameters of the scratch projection; the order of columns in the scratch relation is not modelled.
- Lower-casing in type names is that of ASCII letters; properties of error objects are their own properties.
- Labels, aliases and include paths are values: object identity and caching by identity are left out, except for the alias set of one compilation.
- Connections, transactions, catalog queries, EXPLAIN, cursors, capability flags, redaction, naming plugins, error texts and warnings would only add easy members.
