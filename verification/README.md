# Verified models of the dashboard and generator core

This project models, in Dafny, the parts of the repository that decide what it promises:

- **Typed queries** (`dashboard/query`). A query tree is printed, lexed, parsed, validated and planned. The
  modules `QueryTypes`, `QueryRender`, `QueryLex`, `QueryParse`, `QueryRoundTrip`, `QueryInverse`, `QueryLexRuns`
  prove that printing and parsing are inverse, character by character, on exactly the trees whose names and
  values survive the text. `QueryGrammar` and `QuerySpelling` give the language by a grammar and a spelling of its
  tokens, without a reader, and prove that the lexer and the parser accept exactly that. `QueryNames`,
  `SelectorDomain`, `QueryValidate`, `QueryAcceptance`, `QueryViolations`, `QueryRatio` say what the validator
  accepts, what it reports, and what acceptance buys: an accepted error ratio never exceeds one. `Catalog`,
  `QueryPlanner`, `QueryPlannerSafety`, `QueryAcceptedText`, `PlannedItems`, `PlannedMeaning`, `PlannedTexts` show
  that the planner meets the validator, what its queries select and keep apart, and how they read; `TraceLinks`
  says when a planned link is shown.
- **Metric families and overview queries** (`dashboard/overview`, `dashboard/category`). `Families` and
  `FamilyMeaning`: grouping is a partition and does not depend on the order of items. `OverviewValidate`,
  `FamilyQueries`, `OverviewTargets`, `OverviewPanels`: every family query is accepted, so planning the panels
  fails only at the limit on queries. `OverviewReports` says what is reported otherwise,
  `OverviewMeaning` which panels a catalog gives.
- **Committing files** (`generator/commit`, `cmd/si-cli/dashboard.go`). `FileSystem` is a directory with a fault
  schedule; `FileCommit`, `FileCommitSafety`, `FileCommitTheorems` cover the journal, its rollback and cleanup,
  `FileCommitReports` what they report under any faults; `DashboardLock` covers any number of interleaved runs of
  the lock and rename protocol, and when a run succeeds.
- **The schema checker** (`generator/schemacheck`). `Json`, `SchemaCheck`, `SchemaValidator`, `SchemaMeaning`:
  it terminates on every schema, and its verdict, when a malformed nested schema does not make it panic, is the
  meaning of the draft-07 keywords (sections 6.1 to 6.5
  and 6.7 of JSON Schema Validation draft-07, section 8.3 of JSON Schema Core draft-07) when references do not
  form a cycle.
- **Layout** (`dashboard/layout.go`, both `placePanels`, `stackRows`). `Grid`, `GridTheorems`, `GridMeaning`: two
  packers agree, nothing on the stacked dashboard overlaps, and every panel is where the order of IDs puts it.
- **Supports**. `DocumentDiff`, `DiffMeaning` (semantic diff), `Identifiers` (panel IDs and refIds), `Diagnostics`
  (aggregation in place), `CallGraph` (caller and callee lists), `Cardinality` (series budgets in 64-bit
  arithmetic), `SeriesCount` (the series themselves), `Ordering` (string order, sorting, lists without repetition),
  `Decimals`, `Wrappers` (option and result).

`dafny verify dfyconfig.toml` checks everything.

## How it is put together

Code that updates state step by step is a method, or a class whose methods state their whole effect by a
specification function over values; the theorems are lemmas about those functions. Library sorts are one
function that returns a sorted permutation; wherever a result depends on a sort, a lemma shows the sorted
arrangement is unique (`Ordering.SortedUnique`), so neither the algorithm nor its instability can be seen; only
panels that share an ID are packed in the order this function leaves them in.
Map iteration is a choice of any remaining key. Every lemma is `{:induction false}`: the proofs are the bodies.

Parameters stand for what is not modelled: `Strconv` for `FormatFloat`, `ParseFloat` and `IsPrint`, `Regexp`
and `regex` for regular expressions, `hash` for the FNV digest, `marshal` for `json.Marshal`, `Schedule` and
`Event` for the outcome of system calls, `rate` and `store` for a monitored system.

## Where code and documentation part

Each of these is modelled as the code is, and the point is settled by a lemma.

- The lexer does not move past a `!` that no `=` follows: `QueryLexRuns.DivergesExactlyWhen` says exactly for
  which texts `lex` never returns. `QueryLex.Lex` and `QueryParse.Parse` are stated for all others.
- The validator admits `:` in metric names and the lexer does not, and a bare selector may be named like a
  function: `QueryAcceptedText.AcceptedRoundTripsExactlyWhen`.
- Rollback starts below the failed entry, so a target whose replacing rename fails after its backup was taken
  is left aside, and cleanup then removes the backup. Any failed inspection of a target counts as an absent
  target, so one that is there is replaced without a backup and removed by a rollback
  (`FileCommitTheorems.FailedInspectionLosesTarget`). These are the only losses:
  `FileCommitTheorems.FailedRunKeepsAllExactlyWhen`; `FileCommitTheorems.RestoringTheAsideRepairs` shows the one
  rename that would mend the first.
- The generator calls `Cleanup` even when it did not get the lock, or never tried because the output directory
  was refused, and so removes another run's lock: `FileCommitTheorems.RefusedRunDropsForeignLock`.
- A `$ref` that is already being checked is accepted as it stands: `SchemaMeaning.CyclicReferenceIsCut`.
- The planner chooses the first metric of a name and the validator reads the last:
  `QueryPlannerSafety.RepeatedNameIsRejected`.
- The validator compares the two sides of a ratio without their status matchers, and a denominator that is a
  ratio itself may filter by status: the comparison then guarantees nothing
  (`QueryRatio.CoverageExactlyWhen`, `QueryRatio.NestedRatioIsNotCovered`).
- A trace link planned for an item without a controlled operation or service is dropped later without a
  diagnostic about the operation: `TraceLinks.PlannedLinkShownExactlyWhen`.
- The unit of a family is that of the first metric met: `FamilyMeaning.UnitIsFirst`.
- The comment on `aggregateDiagnostics` names three sort keys; the code also sorts by message, which is what
  makes its result a set in order: `Diagnostics.AggregateIsSet`.

Two places look unguarded and are safe in the repository as it stands. The sum of series estimates can only wrap
beyond the limits that the policy enforces: `Cardinality.BudgetIsIntended`. Family keys join labels with commas,
and a label with a comma would make two families share a key (`FamilyMeaning.CommaCollides`), but
`dashboard/builder.go:363` keeps only the labels `service`, `operation` and `status`.

## Model

| member | source | states |
|---|---|---|
| `QueryRender.Render` | dashboard/query/render.go:13-22 | The text written to the builder is the text of the tree, or an error exactly when a node is nil, a metric name is empty or an operator is unknown |
| `QueryRender.RenderExpression` | dashboard/query/render.go:24-79 | Appends exactly the text of the tree to what the builder holds and succeeds exactly when every node can be printed |
| `QueryRender.RenderSelector` | dashboard/query/render.go:81-109 | Appends the metric name and, if there are matchers, the braces, in order |
| `QueryLex.LexString` | dashboard/query/parse.go:131-153 | The value up to the closing quote and the position behind it; a backslash, a line break or no closing quote is an error |
| `QueryLex.Lex` | dashboard/query/parse.go:58-129 | On every text on which the loop ends: all tokens of the text, or an error |
| `QueryLexRuns.LoopEnds` | dashboard/query/parse.go:58-129 | The specification of the lexer is what the position-by-position loop does: it ends with these tokens, with an error, or never |
| `QueryLexRuns.DivergesExactlyWhen` | dashboard/query/parse.go:97-113 | The loop never ends exactly when a lone `!` stands behind a prefix that lexes |
| `QueryLexRuns.PairedBangsEnd` | dashboard/query/parse.go:58-129 | If every `!` outside quotes is followed by `=`, the loop ends |
| `QueryParse.ExprParser.Advance` | dashboard/query/parse.go:179-185 | Returns the token at the index and moves the index past it, never past the end |
| `QueryParse.ExprParser.ParseSelectorHere` | dashboard/query/parse.go:266-307 | Reads what the selector grammar reads from the remaining tokens and leaves the index behind it, never past the end |
| `QueryParse.ExprParser.ParseAggregation` | dashboard/query/parse.go:309-344 | Reads one `sum`, with its labels before the parenthesis, and consumes its tokens |
| `QueryParse.ExprParser.ParseRate` | dashboard/query/parse.go:346-373 | Reads one `rate` and consumes its tokens |
| `QueryParse.ExprParser.ParseQuantile` | dashboard/query/parse.go:375-399 | Reads one `histogram_quantile` and consumes its tokens |
| `QueryParse.ExprParser.ParseTermHere` | dashboard/query/parse.go:208-247 | Reads one term: parenthesis, number, function or selector |
| `QueryParse.ExprParser.ParseExpr` | dashboard/query/parse.go:192-206 | Reads the longest chain of divisions and consumes its tokens, as the grammar of `QueryGrammar.ParsesExactlyWhen` and the grouping of `QueryGrammar.ChainGroupsLeft` fix it; with the other parse methods it terminates on every token list |
| `QueryParse.Parse` | dashboard/query/parse.go:15-29 | A tree exactly when the whole text is one expression, else an error |
| `QueryGrammar.ParsesExactlyWhen` | dashboard/query/parse.go:187-399 | The parser answers a tree exactly when the tokens are a phrase of the grammar that means it; so no token list has two meanings and none that is a phrase is refused |
| `QueryGrammar.ChainGroupsLeft` | dashboard/query/parse.go:197-204 | The tokens of any trees with slashes between them parse to the left fold of the divisions |
| `QueryGrammar.ChainTextGroupsLeft` | dashboard/query/parse.go:197-204 | The same of the characters: the texts of the trees joined by ` / ` |
| `QuerySpelling.LexesExactlyWhen` | dashboard/query/parse.go:58-153 | The lexer answers these tokens exactly when the text spells them one after the other, with blanks between, each name and number as long as it can be |
| `QuerySpelling.QueryExactlyWhen` | dashboard/query/parse.go:15-29 | Parse answers a tree exactly when the text spells a phrase that means it |
| `QueryRoundTrip.LexPrinted` | dashboard/query/render.go:24-109 | The text of a tree lexes to the tree's tokens, whatever boundary follows |
| `QueryInverse.ReadTerm` | dashboard/query/parse.go:208-247 | The tokens of any tree, followed by anything that does not continue them, parse to that tree and leave the rest |
| `QueryInverse.PrintedParses` | dashboard/query/parse.go:15-29 | Printing and parsing gives back the same tree, of any depth, divisions nested on either side |
| `QueryInverse.ParsedShape` | dashboard/query/parse.go:208-307 | Every parsed tree has identifiers for names and no selector that reads as a function |
| `QueryInverse.RoundTripExactlyWhen` | dashboard/query/render.go:13-109 | A tree with plain numbers survives printing and parsing exactly when its names are identifiers, no standing selector is a function name and no value needs an escape |
| `QueryInverse.ParseThenRenderNormalises` | dashboard/query/parse.go:15-28 | Rendering a parsed text and parsing again gives the same tree exactly when no value needs an escape: redundant parentheses and spaces do not change meaning |
| `QueryInverse.EqualIsIdentity` | dashboard/query/parse.go:403-445 | Structural equality of trees is identity of trees |
| `SelectorDomain.RenderMatchers` | dashboard/query/validate.go:344-361 | The matchers written one after the other |
| `SelectorDomain.Normalize` | dashboard/query/validate.go:295-331 | One text per selector, without status matchers and with sorted matchers, in sorted order |
| `SelectorDomain.SameSelectorDomain` | dashboard/query/validate.go:291-342 | Whether both lists are non-empty and their normal forms are equal |
| `SelectorDomain.MatchersDomainInjective` | dashboard/query/validate.go:344-361 | On controlled matchers the concatenated text determines the list of matchers |
| `SelectorDomain.SameDomainExactlyWhen` | dashboard/query/validate.go:291-342 | On controlled selectors: true exactly when both lists are non-empty and equal as multisets of metric and multiset of non-status matchers |
| `SelectorDomain.UncontrolledValuesCollide` | dashboard/query/validate.go:344-361 | A value outside the controlled set makes two different selectors compare equal |
| `QueryValidate.Report.ValidateMatcher` | dashboard/query/validate.go:230-285 | Appends this matcher's violations, in order |
| `QueryValidate.Report.ValidateSelector` | dashboard/query/validate.go:214-286 | Appends the selector's violations, in order, and nothing after an uncontrolled name |
| `QueryValidate.Report.ValidateExpression` | dashboard/query/validate.go:141-212 | Appends the violations of the whole tree, in order, to the shared list |
| `QueryValidate.ValidatePlan` | dashboard/query/validate.go:80-123 | The list of violations of a plan against its item |
| `QueryAcceptance.NothingFoundMeans` | dashboard/query/validate.go:141-286 | The recursion finds nothing exactly when every node, with its depth and side, obeys the rules of its kind |
| `QueryAcceptance.AcceptedExactlyWhen` | dashboard/query/validate.go:80-123 | A plan is accepted exactly when its plan IDs are the item's, it is not a bare selector and every node obeys the rules |
| `QueryViolations.ReportedExactly` | dashboard/query/validate.go:141-286 | An expression's violations are exactly those of its nodes down to depth nine: for each rule, where it is broken, under the field that leads there |
| `QueryViolations.PlanReportedExactly` | dashboard/query/validate.go:80-123 | A plan with a foreign plan ID is reported for that alone, any other exactly for being a bare selector and for what its nodes break under the last declarations of the item |
| `QueryViolations.CollectedExactly` | dashboard/query/validate.go:363-382 | The selectors that a comparison collects are those of all nodes of the tree |
| `QueryAcceptance.LastDeclarationRules` | dashboard/query/validate.go:87-94 | The last metric of a name decides its type and labels |
| `QueryRatio.SidesPaired` | dashboard/query/validate.go:178-197 | Both sides of an acceptable division of an error ratio, whatever is nested in them, pair up one to one, each numerator selector within its denominator selector, if no denominator selector filters by status |
| `QueryRatio.NumeratorsAreCovered` | dashboard/query/validate.go:178-197 | In an accepted error ratio, at every division whose denominator does not filter by status, at any place and nesting, every series of a numerator selector is selected by its own denominator selector |
| `QueryRatio.CoverageExactlyWhen` | dashboard/query/validate.go:288-342 | Whatever numerators the comparison accepts against some denominators are covered by them, exactly when none of the denominators filters by status |
| `QueryRatio.RatioAtMostOne` | dashboard/query/validate.go:259-263 | For any non-negative rates, every group's ratio of an accepted ratio of sums lies between zero and one |
| `QueryRatio.NestedRatioIsNotCovered` | dashboard/query/validate.go:189-195 | With a ratio as denominator an accepted query can have numerator series no denominator of their own selects, for every regular expression matcher whose error pattern refuses the empty status |
| `QueryPlanner.FirstMetric` | dashboard/query/planner.go:342-360 | The first metric with the type, a controlled name and all required attributes, or none |
| `QueryPlanner.AppendRatePlan` | dashboard/query/planner.go:60-89 | Appends the rate query, or a missing-metric diagnostic |
| `QueryPlanner.AppendErrorRatioPlan` | dashboard/query/planner.go:91-137 | Appends the error ratio, or a missing-metric diagnostic |
| `QueryPlanner.AppendPercentilePlans` | dashboard/query/planner.go:139-179 | Appends one query per fixed quantile, in order, or a missing-metric diagnostic; what those queries are is `PlannedMeaning.PercentilesAre`, `PlannedMeaning.PlansKeepApart` and `PlannedTexts.PlansAreWritten` |
| `QueryPlanner.AppendInFlightPlan` | dashboard/query/planner.go:181-213 | Appends the in-flight query, or a missing-metric diagnostic |
| `QueryPlanner.AppendTraceLink` | dashboard/query/planner.go:215-259 | Appends the trace link of the first span, or one diagnostic, or nothing when links are off |
| `QueryPlanner.PlanItemQueries` | dashboard/query/planner.go:19-58 | All queries of an item by key, its trace links, and all diagnostics in order |
| `TraceLinks.ValidateTraceLink` | dashboard/query/validate.go:388-432 | The fields of the violations of a link against its item, in order |
| `TraceLinks.LinkReportedExactly` | dashboard/query/validate.go:388-432 | Any link is reported for exactly the fields that break a rule, its plan IDs if one is no span's |
| `TraceLinks.ShownLinks` | dashboard/category/category.go:241-255 | The links without violations, in order |
| `TraceLinks.PlannedLinkShownExactlyWhen` | dashboard/query/planner.go:215-259 | An item has one link exactly when policy and item allow it and the first span name is controlled; the link passes exactly when service and operation are controlled too, and no diagnostic tells of the operation |
| `QueryPlannerSafety.AcceptedExactlyWhenConsistent` | dashboard/query/planner.go:19-213 | An emitted query is accepted exactly when the last declaration of its metric name fits the selectors used and the rate interval is the fixed one |
| `QueryPlannerSafety.PlannerIsSafe` | dashboard/query/planner.go:19-213 | With distinct metric names the validator accepts every emitted query under the fixed interval, and under another interval exactly the in-flight ones |
| `QueryPlannerSafety.RepeatedNameIsRejected` | dashboard/query/planner.go:342-360 | Two metrics of one name can make the validator reject the planner's query |
| `QueryPlannerSafety.KeysAreDistinct` | dashboard/query/planner.go:42-44 | The queries of an item have different keys, so sorting them leaves no choice |
| `QueryAcceptedText.AcceptedRoundTripsExactlyWhen` | dashboard/query/validate.go:50 | The text of an accepted query parses back to it exactly when no metric name holds a colon and no standing selector is named like a function |
| `QueryAcceptedText.PlannedTextReadsBack` | dashboard/query/planner.go:19-213 | The same for the planner's queries, in terms of the name of the chosen metric, which every selector of the query carries |
| `QueryAcceptedText.PlannedRatioAtMostOne` | dashboard/query/planner.go:91-137 | Every error ratio the planner emits lies between zero and one in every group |
| `PlannedMeaning.PlansSelectExactly` | dashboard/query/planner.go:60-213 | Each planned query selects exactly its metric's series of the validated service and operation: the failed ones in a numerator, the finite buckets under a percentile |
| `PlannedMeaning.PlansKeepApart` | dashboard/query/planner.go:60-213 | Two series fall in one group of a rate exactly when their operations agree, of a ratio's sides and a gauge sum so too if the metric declares operations and always otherwise, under a percentile exactly when they are of one bucket |
| `PlannedMeaning.PercentilesAre` | dashboard/query/planner.go:139-179 | The percentile queries are three, for 0.50, 0.95 and 0.99, under their own purposes |
| `PlannedTexts.PlansAreWritten` | dashboard/query/planner.go:60-213 | The text of every planned query, character by character, for every metric, service, operation, interval and quantile |
| `PlannedItems.PlannedOrReported` | dashboard/query/planner.go:60-213 | Each query class has its queries, all over the first metric that fits, exactly when the capability is available and some metric fits, and otherwise exactly one diagnostic, which says which of the two is missing |
| `PlannedItems.LinkedOrReported` | dashboard/query/planner.go:215-259 | The trace link field by field, or the one diagnostic in its place, or neither when links are off |
| `PlannedItems.ItemsAreWhole` | dashboard/query/planner.go:19-58 | An item's three lists hold the queries, link and diagnostics of all classes, with a report for each uncontrolled name and for an uncontrolled service, nothing else, in the order of keys and of code, target and field |
| `PlannedMeaning.FamilyQueriesSelectExactly` | dashboard/overview/queries.go:221-303 | A family's queries select exactly the family's series of the service, across operations |
| `PlannedMeaning.FamilyQueriesKeepApart` | dashboard/overview/queries.go:221-303 | What a family's queries keep apart: operations, under a percentile buckets, in a gauge sum operations where the family declares them |
| `PlannedTexts.FamilyQueriesAreWritten` | dashboard/overview/queries.go:221-303 | The text of every family query, character by character |
| `Families.Grouping.Add` | dashboard/overview/families.go:58-74 | Adds one metric to the record of its key, creating the record for a new key, each list without repetition |
| `Families.Grouping.AddItem` | dashboard/overview/families.go:50-76 | Adds an item's metrics with valid names and reports the others |
| `Families.BuildFamilies` | dashboard/overview/families.go:48-94 | One family per key in key order, every list sorted, whatever order the map is walked in; the diagnostics of dropped names |
| `Families.SortedFamilies` | dashboard/category/kafka.go:511-524 | The records of the table, sorted by key, each record's lists sorted |
| `FamilyMeaning.KeyIdentifies` | dashboard/overview/families.go:98-100 | Keys are equal exactly when name, type and label set are, for labels without commas and types without NUL |
| `FamilyMeaning.CommaCollides` | dashboard/overview/families.go:98-100 | A label with a comma, which the repository's own catalog never holds, would make two label sets share a key |
| `FamilyMeaning.TableMeans` | dashboard/overview/families.go:50-76 | The table holds one record per key, listing exactly the plan IDs, items and categories of the metrics with that key, each once |
| `FamilyMeaning.FamiliesPartition` | dashboard/overview/families.go:48-94 | Every metric with a valid name is in exactly one family, that of its name, type and label set; families list exactly what their metrics bring |
| `FamilyMeaning.OrderDoesNotMatter` | dashboard/overview/families.go:48-94 | The same items in another order give the same families in the same order, but for the unit |
| `FamilyMeaning.UnitIsFirst` | dashboard/overview/families.go:62-70 | A family's unit is that of the first metric met |
| `OverviewValidate.ValidateOverviewPlan` | dashboard/query/overview_validate.go:23-126 | The list of violations of a query against all the items it aggregates, in order |
| `OverviewValidate.CheckSelector` | dashboard/query/overview_validate.go:69-108 | One selector's violations and what it adds to the merged types and labels |
| `OverviewValidate.OverviewAcceptedExactlyWhen` | dashboard/query/overview_validate.go:23-126 | Accepted exactly when every selected metric is declared alike by every item, plan IDs are known and cover it, operations are not filtered, and the tree obeys the rules of one item |
| `OverviewReports.OverviewAcceptedMeans` | dashboard/query/overview_validate.go:23-126 | The same told from the metrics: each selected metric is declared by every item, last with one type and one label list, and one of its plan IDs is the query's |
| `OverviewReports.OverviewReportedExactly` | dashboard/query/overview_validate.go:23-126 | Every violation of a query over several items and nothing else: foreign plan IDs, no selector, what is said of each selected metric, a bare selector, and what the nodes break under the merged declarations |
| `FamilyQueries.FamilyQueriesPass` | dashboard/overview/queries.go:188-329 | Every query built from a family of the catalog is accepted against the family's items with the validated service name and the fixed interval; with another interval exactly the in-flight ones |
| `OverviewTargets.ValidatedTarget` | dashboard/overview/queries.go:188-211 | A target exactly when the query is accepted and can be printed, else an error |
| `OverviewTargets.FamilyTargets` | dashboard/overview/queries.go:153-170 | One target per family behind the gate, in order; an error exactly when some such family's query fails |
| `OverviewTargets.NoTargetFails` | dashboard/category/kafka.go:341-421 | On the families of a catalog, with the validated service name and the fixed interval, no target fails, whatever gate and builder |
| `OverviewPanels.BuilderBuilds` | dashboard/overview/queries.go:221-326 | The seven overview builders and the five Kafka builders make such queries behind their gates |
| `OverviewPanels.CatalogClassesPass` | dashboard/overview/queries.go:72-111 | On the families of a catalog no target of any overview panel fails, nor of any Kafka family panel |
| `OverviewPanels.Specs` | dashboard/overview/queries.go:72-151 | The seven panels with a target for each gated family, or an error exactly when some target fails |
| `OverviewPanels.Panels` | dashboard/overview/queries.go:37-70 | The panels with targets in order and the purposes of the others; an error exactly when a target fails or there are more than thirty queries |
| `OverviewPanels.OverviewFailsOnlyAtTheLimit` | dashboard/overview/queries.go:37-70 | On a catalog no target fails, and a family brings at most three queries, so ten families always fit |
| `OverviewPanels.PanelKeysDiffer` | dashboard/overview/queries.go:305-329 | The canonical keys of the targets of one panel differ |
| `OverviewMeaning.PanelShownExactlyWhen` | dashboard/overview/families.go:106-114 | A panel has a target for exactly the families with the type and labels its question needs, and is shown exactly when some metric of the catalog with a controlled name has them |
| `OverviewMeaning.PanelsAndMissing` | dashboard/overview/queries.go:37-70 | The overview shows the classes that the catalog feeds, in order, and reports the others; the number held against the limit is that of the families feeding each of the seven |
| `FamilyQueries.ErrorRatioFine` | dashboard/category/kafka.go:546-560 | A family's error ratio obeys the ratio rules exactly under the fixed interval |
| `FamilyQueries.BuiltSelectors` | dashboard/category/kafka.go:85-103 | Family queries select only the family's metric and never filter by operation |
| `FileSystem.FileWriter.WriteFile` | generator/commit/commit.go:28-33 | A write that works leaves exactly its bytes; one that fails leaves arbitrary bytes; nothing else changes |
| `FileSystem.FileWriter.RenameFile` | generator/commit/commit.go:23-24 | A rename that works moves the node; one that fails changes nothing |
| `FileSystem.FileWriter.Lstat` | generator/commit/commit.go:18-19 | Says what is there, that nothing is, or neither; changes nothing |
| `FileCommit.Commit.Prepare` | generator/commit/commit.go:118-156 | The verdict on the output directory, the lock and the targets in turn, failed inspections included; writes nothing but the lock. `FileCommitTheorems.PrepareExactlyWhen` says which verdict it is |
| `FileCommit.Commit.WriteTemp` | generator/commit/commit.go:163-185 | Journals the target and writes its temporary file, or says where it stopped |
| `FileCommit.Commit.SwapIn` | generator/commit/commit.go:187-198 | Backs up a target that inspection finds and renames the temporary file over it, or says where it stopped |
| `FileCommit.Commit.Run` | generator/commit/commit.go:162-213 | The whole commit with its rollback on the first failure: journal, directory and lists |
| `FileCommit.Commit.RollBack` | generator/commit/commit.go:217-239 | Undoes the entries below the failed one, last first, and lists each |
| `FileCommit.Commit.Cleanup` | generator/commit/commit.go:244-265 | Removes every temporary file, backup and the lock, collecting failures |
| `FileCommitSafety.FromGood` | generator/commit/commit.go:162-201 | However far a run gets, every target below the stop is replaced, with its old node at the backup unless its inspection failed, every one above is untouched, and every state so far was whole |
| `FileCommitSafety.RollbackGood` | generator/commit/commit.go:217-239 | Rollback keeps every state whole and loses nothing that was not lost before, under every fault schedule |
| `FileCommitTheorems.EveryStateSafe` | generator/commit/commit.go:162-239 | After every operation of every run and its rollback each target is as before, or complete and new, or absent, and unmanaged paths are unchanged; if no inspection of a present target failed, its old node is in place or at the backup |
| `FileCommitTheorems.RollbackListsEachOnce` | generator/commit/commit.go:217-239 | Restored, Removed and Failed together list the entries below the failed one, each once, whatever fails |
| `FileCommitTheorems.FailedRunRestores` | generator/commit/commit.go:162-239 | After a failure at target k and a rollback without faults everything is as before, except k if its replacing rename failed after its backup (the old node is there) and targets replaced after a failed inspection (gone); the lists run from k-1 down to 0 |
| `FileCommitTheorems.FailedRunKeepsAllExactlyWhen` | generator/commit/commit.go:205-265 | After cleanup every target has its old node exactly when none was left aside and no present target was replaced after a failed inspection; those are gone |
| `FileCommitTheorems.FailedInspectionLosesTarget` | generator/commit/commit.go:187-194 | One failed inspection and a later refused target: the run fails, its rollback succeeds and the first target is gone |
| `FileCommitTheorems.RestoringTheAsideRepairs` | generator/commit/commit.go:217-239 | With that one backup renamed back before cleanup, every target is restored exactly when no present target was replaced after a failed inspection |
| `FileCommitTheorems.PrepareReady` | generator/commit/commit.go:118-156 | A successful Prepare has seen a directory, taken a free lock and changed nothing else, and every existing target is a regular file under force |
| `FileCommitTheorems.PrepareExactlyWhen` | generator/commit/commit.go:118-156 | Without faults the answer, ready or any refusal, told from the disk alone: the directory, then the lock, then the first target that is there and may not be replaced |
| `FileCommitTheorems.CleanupWorks` | generator/commit/commit.go:244-265 | A cleanup without faults removes the journal's scratch files and the lock, nothing else |
| `FileCommitReports.CleanupReports` | generator/commit/commit.go:244-265 | Whatever fails, cleanup makes one call for each scratch path and the lock, reports exactly the paths whose call failed, in order, and removes exactly the others |
| `FileCommitReports.RollbackReports` | generator/commit/commit.go:217-239 | Whatever fails, the three lists are the committed targets, last first, by the outcome of their calls; the restored ones are as before, the removed ones gone, the failed ones still new |
| `FileCommitReports.RunStopsWhere` | generator/commit/commit.go:162-201 | A run stops at the first call that fails, inspections apart, and its stage says which one; it commits only if no other call failed; a backup is taken exactly for a target that was seen |
| `FileCommitTheorems.SuccessLeavesOnlyTargets` | generator/commit/commit.go:118-265 | A run that commits and is cleaned up without faults overwrites exactly the targets; no temporary file, backup or lock remains; every other path is unchanged |
| `FileCommitTheorems.FaultFreeRunIsAllOrNothing` | generator/commit/commit.go:118-265 | After a ready Prepare and without faults the run commits exactly when no target's temporary name was taken, and otherwise gives every target back |
| `FileCommitTheorems.GeneratedTargetsAreWellNamed` | cmd/si-cli/generate.go:337-346 | The generator's own file names, one per signal, satisfy the hypothesis on names |
| `FileCommitTheorems.RefusedRunDropsForeignLock` | cmd/si-cli/generate.go:272-273 | Cleaning up after a Prepare that did not get the lock removes the lock of the run that holds it |
| `DashboardLock.StepKeepsInv` | cmd/si-cli/dashboard.go:589-675 | Every system call of every run keeps the invariant: one run in the section, its temporary file in step, the target complete |
| `DashboardLock.SafeAlways` | cmd/si-cli/dashboard.go:589-675 | In every reachable state of any interleaving at most one run is between acquire and release, and the target holds its initial contents or one run's complete contents |
| `DashboardLock.OnlyTheHolderWrites` | cmd/si-cli/dashboard.go:622-660 | Only the run in the section changes the temporary file or the target, and the target only to its complete contents |
| `DashboardLock.AtMostOneNonForcedSuccess` | cmd/si-cli/dashboard.go:615-621 | At most one run without force ever succeeds, and none over an existing file, under any interleaving; when a run does succeed is `DashboardLock.AloneSucceedsExactlyWhen` |
| `DashboardLock.AloneSucceedsExactlyWhen` | cmd/si-cli/dashboard.go:589-675 | A run that alone acts finishes whatever fails, and succeeds exactly when every call works and the target was absent or force is set; then the target holds its complete contents, else, with every call working, what it held; a lock or temporary file is left only if the call that removes it fails |
| `DashboardLock.TakenPathBlocks` | cmd/si-cli/dashboard.go:589-613 | A lock or a temporary path that was taken blocks every run, under any interleaving, and both stay as they are |
| `DashboardLock.WriteDashboardBytes` | cmd/si-cli/dashboard.go:677-689 | On success every byte is in the file, however the writes were split |
| `SchemaCheck.Resolve` | generator/schemacheck/schemacheck.go:68-82 | A reference resolves only to a definition that exists |
| `SchemaValidator.Validator.Validate` | generator/schemacheck/schemacheck.go:84-134 | Terminates on every schema, leaves the active set as it found it and returns the verdict, or the panic of a malformed nested schema that is reached; what the verdict means is `SchemaMeaning.VerdictIsMeaning`, with types as in `SchemaMeaning.TypeMeans` |
| `SchemaValidator.Validator.ValidateEnum` | generator/schemacheck/schemacheck.go:136-155 | The enum and const constraints |
| `SchemaValidator.Validator.ValidateText` | generator/schemacheck/schemacheck.go:157-177 | The string constraints |
| `SchemaValidator.Validator.ValidateNumber` | generator/schemacheck/schemacheck.go:179-197 | The number constraints |
| `SchemaValidator.Validator.ValidateArray` | generator/schemacheck/schemacheck.go:199-224 | The array constraints and the items schema, active set kept |
| `SchemaValidator.Validator.ValidateObject` | generator/schemacheck/schemacheck.go:226-251 | The object constraints and the properties, in whatever order the map is walked, active set kept |
| `SchemaValidator.Validator.ValidateAny` | generator/schemacheck/schemacheck.go:262-271 | Whether some branch accepts, active set kept |
| `SchemaValidator.Validator.ValidateOne` | generator/schemacheck/schemacheck.go:272-283 | Whether exactly one branch accepts, active set kept |
| `SchemaValidator.Validate` | generator/schemacheck/schemacheck.go:25-66 | The verdict on decoded values, or a panic, starting with no active definition |
| `SchemaMeaning.WellFormedNeverPanics` | generator/schemacheck/schemacheck.go:84-284 | With all nested schemas well-formed no check panics |
| `SchemaMeaning.JsonEqualIsEquality` | generator/schemacheck/schemacheck.go:350-388 | The recursive comparison is equality of JSON values |
| `SchemaMeaning.AssertionsMean` | generator/schemacheck/schemacheck.go:136-251 | The checks on one value are the assertions of sections 6.1 to 6.5, stated without loops or order |
| `SchemaMeaning.TypeMeans` | generator/schemacheck/schemacheck.go:286-312 | Section 6.1.1: `integer` is a number without a fraction, each other name is its own kind, and an unknown name asks for nothing |
| `SchemaMeaning.ReferenceVerdict` | generator/schemacheck/schemacheck.go:68-99 | What a schema with a reference accepts: its definition's documents, every document while that definition is being checked, none for a reference to nothing |
| `SchemaMeaning.VerdictIsMeaning` | generator/schemacheck/schemacheck.go:84-284 | When every reference resolves and definitions do not refer to each other in a cycle, the verdict is the declarative meaning of the schema |
| `SchemaMeaning.CyclicReferenceIsCut` | generator/schemacheck/schemacheck.go:84-99 | With a cyclic definition the checker accepts a document whose child the same definition refuses |
| `Grid.PlanRow` | dashboard/layout.go:89-120 | The placements of one category and the height its row takes |
| `Grid.PlanGrid` | dashboard/layout.go:75-123 | One row per category with panels, in the fixed order, stacked |
| `Grid.PlaceCategoryPanels` | dashboard/category/render.go:96-122 | Every panel gets its placement less the one-line band; refuses a category without a slot and leaves the panels alone |
| `Grid.PlaceOverviewPanels` | dashboard/overview/render.go:93-120 | Every panel, in place, gets the box that packing in ID order gives its ID, the last one when panels share it |
| `Grid.LowerRow` | dashboard/pipeline/plan.go:286-294 | Moves a row's panels below its band in place and returns the lowest edge |
| `Grid.StackRows` | dashboard/pipeline/plan.go:280-297 | Every row's panels end up below its own band, each row below the rows before |
| `GridTheorems.PackApart` | dashboard/layout.go:94-117 | No two packed boxes overlap |
| `GridTheorems.PackFillsLines` | dashboard/layout.go:100-117 | Sizes are kept (clamped), each box is right of the one before or starts a line exactly at the lowest edge of everything so far because it would not have fitted |
| `GridTheorems.PackersAgree` | dashboard/overview/render.go:93-120 | Both renderers put every panel in the same place |
| `GridTheorems.PlanGridSafe` | dashboard/layout.go:68-74 | All placements are in bounds and no two panels or bands of the grid overlap |
| `GridTheorems.RenderedPackedExactlyWhen` | dashboard/model/validate.go:186-189 | A row placed by either renderer is in bounds and apart exactly when its panels have different IDs |
| `GridTheorems.RenderedDashboardFine` | dashboard/pipeline/plan.go:280-297 | Rows with different panel IDs, each placed by either renderer, and then stacked: all the conclusions below |
| `GridTheorems.DashboardApart` | dashboard/pipeline/plan.go:280-297 | After stacking no two panels anywhere overlap, no panel meets any row band, no two bands meet, and every panel meets the model validator's bounds |
| `GridMeaning.PositionsShelve` | dashboard/overview/render.go:93-120 | Where a row's panels go, told from their IDs and sizes alone: the smallest ID in the corner, each next one to the right or, if there is no room, at the left edge right under all smaller ones |
| `GridMeaning.StackingIsTight` | dashboard/pipeline/plan.go:280-297 | Bands and rows are the one arrangement with the first band at the top and each further one exactly at the lowest edge of the row before: no line is left between rows |
| `GridMeaning.PlanGridMeans` | dashboard/layout.go:75-123 | The categories that have panels, in the fixed order, the last layout of each, its panels shelved below its band, and each band exactly at the lowest edge of the row before |
| `DocumentDiff.Walk.DiffValue` | dashboard/pipeline/diff.go:75-142 | Appends the differences of two values, up to the cap over the whole list |
| `DocumentDiff.SortedUnionKeys` | dashboard/pipeline/diff.go:172-186 | The keys of both objects in order, whatever order the maps are walked in |
| `DocumentDiff.Diff` | dashboard/pipeline/diff.go:39-51 | The first hundred differences of two decoded documents |
| `DocumentDiff.NoneMeansEqual` | dashboard/pipeline/diff.go:75-142 | There is no difference exactly when the values are equal |
| `DocumentDiff.CappedDiffDecides` | dashboard/pipeline/diff.go:144-148 | The capped list is a prefix of the whole, is the whole below a hundred entries, and is empty exactly when the documents are equal |
| `DiffMeaning.ReportsExactly` | dashboard/pipeline/diff.go:75-142 | A difference is reported exactly for a place where the documents part, with its path, the panel it is in, and what the expected and the actual document hold there |
| `DocumentDiff.SwapMirrors` | dashboard/pipeline/diff.go:75-142 | Swapping the documents reports the same paths in the same order with the two values exchanged |
| `Identifiers.Rehash` | dashboard/ids.go:124-127 | The first hash of the key that is not in use |
| `Identifiers.ResolveIDs` | dashboard/ids.go:114-137 | The IDs of the keys, allocated in sorted key order; terminates for any hash that leaves every set smaller than the number of keys |
| `Identifiers.IDsMatchKeys` | dashboard/ids.go:102-137 | IDs are equal exactly when keys are, and each ID is a hash of its key |
| `Identifiers.IDsTakeFirst` | dashboard/ids.go:114-137 | With different keys each ID is the first hash of its key that is not the ID of a smaller key |
| `Identifiers.OrderKeepsIDs` | dashboard/ids.go:102-137 | Permuting the keys, repeated ones included, permutes the IDs |
| `Identifiers.AllocateRefIDs` | dashboard/ids.go:173-192 | An error exactly above 26 queries, else each key's letter |
| `Identifiers.LettersFollowKeys` | dashboard/ids.go:169-192 | Letters run A to Z, follow the order of the keys and are equal exactly when the keys are |
| `Identifiers.LettersAreFirst` | dashboard/ids.go:169-192 | Different keys take the first letters, all of them |
| `Identifiers.OrderKeepsLetters` | dashboard/ids.go:169-192 | Permuting the keys permutes the letters |
| `Diagnostics.CompactInPlace` | dashboard/pipeline/plan.go:325-332 | The prefix that is left is the list without neighbouring repeats, written over the list being read |
| `Diagnostics.AggregateDiagnostics` | dashboard/pipeline/plan.go:301-333 | All diagnostics, sorted, without repeats |
| `Diagnostics.AggregateIsSet` | dashboard/pipeline/plan.go:301-333 | The result lists every diagnostic once, in order, and is the same for two inputs exactly when they hold the same diagnostics |
| `CallGraph.Analyzer.AddFunction` | compiler/goanalyzer/functions.go:121-131 | Adds a function and its record under a new ID, and nothing under a known one |
| `CallGraph.Analyzer.AddFunctionRelation` | compiler/goanalyzer/functions.go:255-263 | Enters the call at both ends, or nowhere when an end is unknown |
| `CallGraph.Analyzer.CollectCalls` | compiler/goanalyzer/functions.go:163-204 | Records every tracked call as an edge, in order, and keeps the lists exactly the resolved edges between known functions |
| `CallGraph.Analyzer.SortResults` | compiler/goanalyzer/functions.go:265-273 | Functions by ID with sorted lists, still exactly the recorded calls |
| `CallGraph.Analyze` | compiler/goanalyzer/functions.go:53-85 | End to end: edges, known functions in order with different IDs, and sorted lists that match them |
| `CallGraph.AnalysisMeans` | compiler/goanalyzer/functions.go:53-85 | One function for each ID, the edges of the first record with it, and as callees and callers exactly the known functions that first records call |
| `CallGraph.ListsAreInverse` | compiler/goanalyzer/functions.go:255-263 | g is a callee of f exactly when f is a caller of g, exactly when a resolved call was recorded |
| `CallGraph.SameCallsSameResult` | compiler/goanalyzer/functions.go:265-273 | The same functions and the same resolved calls give the same result |
| `CallGraph.WalkOrderDoesNotMatter` | compiler/goanalyzer/functions.go:53-85 | Functions walked in another order give the same result of the analysis |
| `Cardinality.EstimateSeries` | generator/naming/cardinality.go:25-58 | Ok with the exact mathematical number of series when it fits int64, an error otherwise: no overflow is missed and no number that fits is refused |
| `SeriesCount.EstimateCountsSeries` | generator/naming/cardinality.go:11-58 | The number estimated is that of the different series the metric exposes, listed one by one: every combination of attribute values with each bucket, `+Inf`, sum and count, each quantile, sum and count, or the value |
| `SeriesCount.EstimateExactlyWhen` | generator/naming/cardinality.go:25-58 | There is an estimate exactly for a known type, attributes with at least one value each, and a histogram with buckets or a summary with quantiles |
| `Cardinality.Scale` | generator/naming/cardinality.go:43-46 | The guard is exact even where the factor itself wraps around |
| `Cardinality.CheckCombinedMetricsBudget` | generator/planner/planner.go:235-259 | Accepts exactly when every estimate fits, there are few enough instruments and the wrapped total is within the limit |
| `Cardinality.HasAttribute` | generator/planner/planner.go:276-283 | Whether the metric has the attribute |
| `Cardinality.TotalBounded` | generator/policy/policy.go:395-440 | Within the policy's limits on buckets and quantiles a metric brings at most 265 series |
| `Cardinality.BudgetIsIntended` | generator/planner/planner.go:235-259 | Under every policy that passes validation the check on the unguarded sum is the intended budget: known types, few enough instruments and the true total within the limit |

## Left out

- Error texts, positions in messages, and which of several errors is reported: results carry success or failure only; the query validators keep their full ordered lists of rules and fields.
- float64: numbers are reals, so NaN, infinities and rounding are not modelled; printing and reading a number are a parameter, assumed inverse only where a lemma says so (`PlainNumbers`).
- Strings are sequences of characters: invalid UTF-8, and what `strconv.Quote` writes after a backslash, are not modelled.
- QueryLex.Lex: stated for the texts on which the loop ends; `QueryLexRuns.DivergesExactlyWhen` says which those are.
- QueryParse.Parse: stated for the same texts, as the source's call never returns on the others.
- Binary operators other than division and nil selector pointers: the renderer and validator refuse or panic on them before anything modelled here.
- QueryPlanner.PlanItemQueries: diagnostics carry code, target and field without the message; provenance metadata and the operation breakdown are not planned here.
- TraceLinks.ShownLinks: the URL of a link is not built.
- The field `errorRatioSide` of the validator's context, which is written and never read.
- OverviewPanels.Panels: titles, widths, units and legends are left out; of the Kafka row only the family panels are modelled, without its operation table and its limits.
- Families.Grouping.Add: the table maps keys to records by value, where the source maps them to pointers; nothing else holds those pointers.
- FileCommit.Commit.Run: Go's `Commit`. `New`'s checks of names and permissions are not modelled; an inspection may fail but does not lie. Distinct target names that are nobody's temporary, backup or lock name are a hypothesis (`WellNamed`), which the source leaves to its callers and the generator meets (`FileCommitTheorems.GeneratedTargetsAreWellNamed`).
- Crash durability and fsync ordering: the source promises in-process rollback only.
- DashboardLock.SafeAlways: the output directory checks are one call that may fail; closing the file after a failed write or sync, which changes only the reported error, is folded into that failure. A write never reports more bytes than it was given.
- SchemaValidator.Validator.Validate: a panic is a result without details; decoding JSON text is not modelled; a pattern that does not compile fails.
- Grid.StackRows: each row has its own panel array, as the assembly builds them; rows are known by their panels only, without titles, targets and IDs.
- Identifiers.ResolveIDs: FNV is the parameter `hash`; whether it leaves every small set, and whether it avoids zero, is not modelled.
- DocumentDiff.Diff: documents are taken decoded; a panel ID too large for an int is not modelled.
- CallGraph.Analyze: walking syntax and resolving a call are a list of outcomes per body; endpoints, dependencies, the order of edges and diagnostics after sorting are not modelled.
- Cardinality.CheckCombinedMetricsBudget: the lists of buckets and quantiles enter by length.
- Names, titles, UIDs, package loading, YAML, protobuf and command-line code are not part of this model; neither is the uniqueness of dashboard UIDs after disambiguation.
