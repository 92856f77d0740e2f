# Cloud Security Posture Assessment — verified model of the scoring and submission core

The application collects a questionnaire of fifteen NIST CSF questions. Each answer has
a free-text response and a maturity rating from 0 to 4. From the answers it builds a PDF
report, and it can also ask a language model for a narrative or store the submission in
a database. This project models the computational core of that system in Dafny:

- **Api** (`api.dfy`) holds the shared types:
  - the six NIST functions;
  - question metadata, one answer and a submission;
  - the first-seen key order of a JavaScript record filled by a loop.
- **Scoring** (`scoring.dfy`) covers the report's numbers:
  - the four-level risk classification and the inherent/residual bucket counts;
  - the per-function averages computed by the client, held as exact rationals;
  - the compliance-table observation bands;
  - the dashboard percentages and the static risk matrix.
- **Narrative** (`narrative.dfy`) holds the local fallback narrative, built when no AI report is available:
  - strengths at an average of at least 2.5 and gaps below 1.5;
  - the fixed triage of each gap and the six-gap limit;
  - the overall average;
  - its agreement with the compliance table.
- **ReportPages** (`report.dfy`) holds the per-function answer sections, in fixed order with empty functions skipped, and the final score summary.
- **Catalog** (`catalog.dfy`) holds the question catalogue and `groupByFunction`, the id lookup, the form schema, and the submission the form builds.
- **Json** (`json.dfy`) is a JSON value, with member lookup where the last duplicate wins and JavaScript truthiness.
- **ReportSchema** (`report_schema.dfy`) covers the AI report schema: required and optional members, their defaults, and a proved round trip.
- **AiReport** (`ai_report.dfy`) is the AI report endpoint:
  - the payload check and API-key lookup;
  - the dataset projection and the server's averaging loop, proved equal to the client's;
  - `trim`, `indexOf`/`lastIndexOf`/`slice` brace extraction;
  - the status of every outcome.
- **Assessments** (`assessments.dfy`) is the persistence endpoint:
  - the request schemas with a round trip;
  - a `Store` class with two tables and a transaction;
  - `submitAssessment`, which stores a header row and one row per answer, all or nothing.

Averages are exact rationals (`real`). JavaScript's `Math.round` on the non-negative
percentage is `Floor(x + 1/2)`. The calls to the model's HTTP API, `JSON.parse`, zod's
`.email()` check and the failures of database queries are parameters of the methods that use them.

## Model

| member | source | states |
|---|---|---|
| Api.ParseFunction | shared/api.ts:17-23 | a wire tag is accepted only when it is one of the six function names, and then names that function |
| Api.ParseFunctionName | shared/api.ts:17-23 | every function's tag reads back as that function |
| Api.Ordinal | client/pages/Index.tsx:776-783 | each function sits at exactly one position of the fixed report order |
| Api.FunctionsOf | shared/api.ts:33-37 | the function tags of the answers, one per answer, in order |
| Api.FirstSeenStep | client/pages/Index.tsx:368-374 | one more answer appends its function to the key order exactly when that function is new |
| Api.FirstSeenKeys | client/pages/Index.tsx:367-378 | the keys of a record filled by walking the answers are exactly the functions that occur, each once |
| Api.DistinctFunctionsAtMostSix | shared/api.ts:17-23 | a duplicate-free list of functions has at most six entries |
| Scoring.Rank | client/pages/Index.tsx:416 | every risk level has its position in the four-level order |
| Scoring.ClassifyRisk | client/pages/Index.tsx:360-365 | classifyRisk is total: 4 or more is Sustainable, 3 Moderate, 2 Severe, below 2 Critical (severity rank = clamp(4 - m, 0, 3) for every integer) |
| Scoring.ClassifyRiskMonotone | client/pages/Index.tsx:360-365 | a higher maturity is never classified as more severe |
| Scoring.Residual | client/pages/Index.tsx:421 | `Math.min(4, m + 1)`: the smaller of 4 and m + 1 |
| Scoring.ResidualNoMoreSevere | client/pages/Index.tsx:421 | residual risk classifyRisk(min(4, m+1)) is never more severe than inherent risk, and is one step milder for m in 1..3 |
| Scoring.ComputeRiskCounts | client/pages/Index.tsx:415-424 | all four buckets are present, and each holds the number of answers classified into it, inherent and residual |
| Scoring.BucketsCoverAll | client/pages/Index.tsx:415-424 | the four inherent counts sum to the number of answers, and so do the residual counts |
| Scoring.AllZeroAllCritical | client/pages/Index.tsx:419-422 | when every rating is 0, every answer is Critical both inherently and residually |
| Scoring.DashboardTotal | client/pages/Index.tsx:427 | the dashboard divisor is never zero, because an empty tally falls back to 1 |
| Scoring.DashboardPercentages | client/pages/Index.tsx:427-428 | for a non-empty submission the four percentage cells of each dashboard sum to exactly 100 |
| Scoring.ShareSum | client/pages/Index.tsx:428 | percentages of four buckets that sum to the divisor add up to 100 |
| Scoring.ComputeFunctionAveragesLocal | client/pages/Index.tsx:367-378 | the loop's result equals the per-function averages of the answers, keyed in first-seen order |
| Scoring.UpToStep | client/pages/Index.tsx:368-374 | one more answer adds its rating and one to its own function's running total and count and leaves the other functions' unchanged |
| Scoring.AccumulateStep | client/pages/Index.tsx:368-374 | one pass of the loop body, creating the key on first sight and adding to it otherwise, keeps the accumulator equal to the tallies of the answers walked so far |
| Scoring.AccumulateByFunction | client/pages/Index.tsx:368-374 | the accumulator has a key exactly for each function seen, in first-seen order, holding that function's rating total and answer count |
| Scoring.CountPositive | client/pages/Index.tsx:371-373 | a function's count is positive exactly when it occurs among the answers |
| Scoring.TotalBounds | client/pages/Index.tsx:372 | a function's total lies between 0 and 4 times its count |
| Scoring.MeanBounds | client/pages/Index.tsx:376 | an average of ratings in 0..4 lies in [0, 4] |
| Scoring.AveragesKeys | client/pages/Index.tsx:367-378 | there is exactly one average per function that occurs, each key once, in first-seen order |
| Scoring.EntriesOfAccumulated | client/pages/Index.tsx:376 | mapping the finished accumulator to averages gives exactly the per-function averages of the answers |
| Scoring.AverageEntry | client/pages/Index.tsx:376 | a function with answers has an entry among the averages holding its total divided by its count |
| Scoring.AveragesValues | client/pages/Index.tsx:376 | each average is its function's total divided by its positive count, and lies in [0, 4] |
| Scoring.MeanThresholds | client/pages/Index.tsx:382-394 | avg < 1.5 iff 2·total < 3·count, and avg ≥ 2.5 iff 2·total ≥ 5·count |
| Scoring.DivBelow | client/pages/Index.tsx:382-393 | comparing a quotient with a cut-off equals comparing the numerator with the scaled cut-off |
| Scoring.UniformTotals | client/pages/Index.tsx:372 | when every rating is m, a function's total is m times its count |
| Scoring.KeysOf | client/pages/Index.tsx:396 | the function names of the average entries, in order |
| Scoring.Observation | client/pages/Index.tsx:381-395 | the text gives the band back: the solid text iff avg ≥ 2.5, the developing text iff 1.5 ≤ avg < 2.5, the function's gap text below 1.5 |
| Scoring.ObservationDefaultUnreachable | client/pages/Index.tsx:383-391 | for the six function names the `default` text "Needs improvement" never appears, and each gap text differs from the two band texts |
| Scoring.ObservationBands | client/pages/Index.tsx:381-395 | for a function that occurs: its gap text iff avg < 1.5, "Developing…" iff 1.5 ≤ avg < 2.5, "Solid…" iff avg ≥ 2.5 |
| Scoring.CellIndex | client/pages/Index.tsx:471 | the severity index min(3, max(i, pi-1)) always lies in 0..3 and is at least the column and row-minus-one |
| Scoring.RiskMatrixOverview | client/pages/Index.tsx:463-475 | five rows, one per probability label, each of four cells given by the cell formula |
| Scoring.MatrixMatchesReference | client/pages/Index.tsx:464-475 | the formula yields the written-out 5×4 grid |
| Scoring.MatrixShape | client/pages/Index.tsx:464-475 | rows 0 and 1 equal the impact header, and severity never decreases along a row or down a column |
| Scoring.RankOfLevel | client/pages/Index.tsx:416 | the k-th level has rank k |
| Narrative.Select | client/pages/Index.tsx:693-694 | the band filter keeps at most one function per entry, and only functions that have an entry |
| Narrative.SelectIff | client/pages/Index.tsx:693-694 | a function is listed in a band iff one of its average entries is in that band |
| Narrative.SelectDistinct | client/pages/Index.tsx:693-694 | a band list repeats no function |
| Narrative.NeverBoth | client/pages/Index.tsx:693-694 | no function is both a strength and a gap |
| Narrative.BandsFromAnswers | client/pages/Index.tsx:690-694 | strength iff the function occurs and 2·total ≥ 5·count; gap iff it occurs and 2·total < 3·count |
| Narrative.SelectEmpty | client/pages/Index.tsx:693-694 | with no entry in a band, that band's list is empty |
| Narrative.AllTwosNeitherStrongNorWeak | client/pages/Index.tsx:690-694 | when every rating is 2 there are neither strengths nor gaps |
| Narrative.AverageSumBounds | client/pages/Index.tsx:691 | the sum of k averages in [0, 4] lies in [0, 4k] |
| Narrative.Overall | client/pages/Index.tsx:691 | the sum of the averages divided by their number, and 0 (the sum over `|| 1`) when there are none |
| Narrative.OverallBounds | client/pages/Index.tsx:691 | the overall average lies in [0, 4], and is 0 when there are no entries |
| Narrative.BeforeColon | client/pages/Index.tsx:701 | `split(":")[0]` is the longest colon-free prefix |
| Narrative.TakeSix | client/pages/Index.tsx:733 | `slice(0, 6)` is a prefix of at most six items, and the whole list when it has at most six |
| Narrative.StrengthLabelHead | client/pages/Index.tsx:693-701 | the text before the colon of a strength label is the function's name |
| Narrative.BeforeColonStopsAtColon | client/pages/Index.tsx:701 | a colon-free head followed by a colon is exactly what the split returns |
| Narrative.LocalNarrativeOf | client/pages/Index.tsx:689-735 | the overall average of the entries; the i-th strength is the label of the i-th strong function and the i-th gap the triage entry of the i-th weak one, in the averages' order; the listed gaps are the first six; stronger areas are "none" without strengths and otherwise the strong functions' tags joined by ", "; the fixed environment, recommendations and conclusion texts |
| Narrative.Names | client/pages/Index.tsx:701 | the wire tags of the functions, one per function, in order |
| Narrative.StrengthHeads | client/pages/Index.tsx:693-701 | the text before the colon of each strength label, in order, is exactly the strong functions' tags |
| Narrative.JoinNonEmpty | client/pages/Index.tsx:701 | joining a list whose first part is non-empty never yields the empty string, so `|| "none"` is not taken when there are strengths |
| Narrative.AllGapsListed | client/pages/Index.tsx:690-733 | because at most six functions exist, every gap computed from real answers is listed |
| Narrative.ComplianceAgreesWithNarrative | client/pages/Index.tsx:381-396 | the compliance row of a function shows the band's text iff the narrative lists that function in that band |
| Narrative.RowBands | client/pages/Index.tsx:381-395 | a row shows a band's text iff its average is in that band |
| Narrative.SelectOwnEntry | client/pages/Index.tsx:693-694 | with distinct keys a function is in a band iff its own entry is |
| Narrative.OnlyEntry | client/pages/Index.tsx:376 | with distinct keys no other entry carries the same function |
| ReportPages.ItemsUpTo | client/pages/Index.tsx:786-788 | the filter keeps only answers of the function, taken from the walked prefix, as many as the function's count there |
| ReportPages.ItemsUpToPrefix | client/pages/Index.tsx:786-788 | the filter of a prefix depends on that prefix only |
| ReportPages.ItemsForSingle | client/pages/Index.tsx:786-788 | on one answer the filter keeps it iff it belongs to the function |
| ReportPages.ItemsForAppend | client/pages/Index.tsx:786-788 | the filter distributes over concatenation, so with the one-answer case it keeps exactly the function's answers in their order |
| ReportPages.ItemsUpToAppend | client/pages/Index.tsx:786-788 | filtering a prefix that extends a whole list is the filtered list followed by the filtered part of the extension |
| ReportPages.PerFunctionSections | client/pages/Index.tsx:776-789 | the loop over the fixed order yields exactly the filtered, non-empty sections |
| ReportPages.SectionsItemsUpTo | client/pages/Index.tsx:786-789 | every section is non-empty and holds exactly its function's answers |
| ReportPages.SectionsStep | client/pages/Index.tsx:785-789 | one more function adds a section exactly when it has answers |
| ReportPages.SectionsOrderedUpTo | client/pages/Index.tsx:776-785 | sections follow the fixed order GOVERN…RECOVER |
| ReportPages.SectionsPresentUpTo | client/pages/Index.tsx:789 | a function has a section iff it has answers |
| ReportPages.SectionsShape | client/pages/Index.tsx:776-789 | non-empty sections, each with exactly its function's answers, in fixed order, present iff the function occurs |
| ReportPages.SectionSizesAppend | client/pages/Index.tsx:785-789 | section sizes add up over concatenation |
| ReportPages.SectionSizesUpTo | client/pages/Index.tsx:785-789 | the sections of the first k functions hold as many answers as those functions have |
| ReportPages.CountsPartition | shared/api.ts:17-23 | the six per-function counts sum to the number of answers |
| ReportPages.SectionsCoverAnswers | client/pages/Index.tsx:776-789 | the sections together hold as many answers as were given, and their answers are a permutation (multiset equality) of the answers |
| ReportPages.SectionsTotalSize | client/pages/Index.tsx:776-789 | the section sizes sum to the number of answers |
| ReportPages.SectionsPermuteAnswers | client/pages/Index.tsx:776-789 | the answers of all sections, one after another, form the same multiset as the answers |
| ReportPages.SectionItemsUpTo | client/pages/Index.tsx:785-789 | the sections of the first k functions hold, as a multiset, exactly the answers of those functions |
| ReportPages.FilteredAll | client/pages/Index.tsx:786-788 | the six filters together take every answer exactly once (multiset equality) |
| ReportPages.ScoreByFunction | client/pages/Index.tsx:848 | the total score is the sum of the six per-function totals |
| ReportPages.ScoreBounds | client/pages/Index.tsx:848 | the total score lies between 0 and 4 per answer |
| ReportPages.Summarize | client/pages/Index.tsx:847-851 | n answers; total = the sum of the ratings; max = 4n, 0 ≤ total ≤ max; avg = total / n for n > 0 and avg = pct = 0 when n = 0; avg in [0, 4]; pct in 0..100 and equal to (50·total + n) div 2n |
| ReportPages.RoundHalfUp | client/pages/Index.tsx:851 | `Math.round`: the integer r with x - 1/2 < r ≤ x + 1/2, the nearest one with halves rounded up |
| ReportPages.AvgBounds | client/pages/Index.tsx:850 | the average lies in [0, 4] |
| ReportPages.PercentRounding | client/pages/Index.tsx:851 | Math.round(avg/4·100) equals the integer quotient (50·total + n) div 2n |
| ReportPages.FloorOfRatio | client/pages/Index.tsx:851 | the floor of a rational quotient is the integer quotient |
| ReportPages.AllFoursScoreFull | client/pages/Index.tsx:847-851 | all ratings 4 give 100 percent |
| ReportPages.AllZerosScoreNothing | client/pages/Index.tsx:847-851 | all ratings 0 give a score of 0 and 0 percent |
| ReportPages.UniformScore | client/pages/Index.tsx:848 | when every rating is m the total is m·n |
| Catalog.Tags | client/pages/Index.tsx:46-168 | the function tags of the questions, in order |
| Catalog.QuestionsUpTo | client/pages/Index.tsx:188 | a group holds only questions of its own function |
| Catalog.GroupByFunction | client/pages/Index.tsx:185-193 | one group per function that occurs, keyed in first-seen order, each holding that function's questions in order |
| Catalog.GroupsPartition | client/pages/Index.tsx:185-193 | the six group sizes sum to the number of questions |
| Catalog.InOwnGroup | client/pages/Index.tsx:188 | every question lies in its own function's group |
| Catalog.CatalogTags | client/pages/Index.tsx:46-168 | the catalogue's tags in order |
| Catalog.CatalogGroupOrder | client/pages/Index.tsx:46-193 | on the catalogue the groups come in the fixed order GOVERN…RECOVER |
| Catalog.CatalogGroupSizes | client/pages/Index.tsx:46-193 | the catalogue has 2, 4, 4, 1, 2 and 2 questions per function |
| Catalog.GroupSize | client/pages/Index.tsx:188 | a group's size is the number of occurrences of its function |
| Catalog.FindIndex | client/pages/Index.tsx:965 | findIndex gives -1 iff no question has the id, and otherwise the first position that has it |
| Catalog.FindOwnIndex | client/pages/Index.tsx:964-965 | with distinct ids, looking up a question's id gives back its own position |
| Catalog.CatalogIdsDistinct | client/pages/Index.tsx:46-168 | the catalogue's ids are pairwise distinct |
| Catalog.FormValid | client/pages/Index.tsx:170-181 | the form schema: organisation of at least 2 characters, a valid e-mail, one non-empty answer rated 0..4 per question |
| Catalog.DefaultValuesInvalid | client/pages/Index.tsx:170-181 | the untouched form never passes the schema |
| Catalog.BuildSubmission | client/pages/Index.tsx:494-504 | the submission carries the form's organisation and e-mail and the timestamp, and pairs the i-th answer with the i-th catalogue question |
| Json.Get | server/routes/ai-report.ts:126-133 | absent iff no field has the key |
| Json.GetLastWins | server/routes/ai-report.ts:126-133 | when a key is repeated, the value of its last field is the one read |
| Json.GetListed | server/routes/ai-report.ts:126-133 | with distinct keys each listed member is found with its own value |
| ReportSchema.RequiredString | server/routes/ai-report.ts:7 | accepted iff the member is present and a string, and then it is that string |
| ReportSchema.DefaultedString | server/routes/ai-report.ts:13-14 | a missing member becomes the default; a present one must be a string |
| ReportSchema.Strings | server/routes/ai-report.ts:8 | accepted iff every element is a string, element by element |
| ReportSchema.ParseGap | server/routes/ai-report.ts:11-18 | a gap needs a string name; description and businessImpact default to "" and likelihood, impact and rating to "Medium" |
| ReportSchema.Gaps | server/routes/ai-report.ts:9-20 | accepted iff every element is a valid gap, element by element |
| ReportSchema.ParseRecommendation | server/routes/ai-report.ts:24-27 | a string is a plain recommendation; an object needs a string action and gets priority "Medium" when none is given |
| ReportSchema.Recommendations | server/routes/ai-report.ts:22-29 | accepted iff every element is a valid recommendation, element by element |
| ReportSchema.DefaultedStrings | server/routes/ai-report.ts:8 | a missing strengths list becomes empty |
| ReportSchema.DefaultedGaps | server/routes/ai-report.ts:9-20 | a missing gaps list becomes empty |
| ReportSchema.DefaultedRecommendations | server/routes/ai-report.ts:22-29 | a missing recommendations list becomes empty |
| ReportSchema.OptionalString | server/routes/ai-report.ts:6 | a missing environment stays absent; a present one must be a string |
| ReportSchema.ParseReport | server/routes/ai-report.ts:5-31 | summary is required; missing lists become empty and missing compliance and conclusion become "" |
| ReportSchema.ReportRoundTrip | server/routes/ai-report.ts:5-31 | every report survives encoding and re-validation unchanged |
| ReportSchema.GapRoundTrip | server/routes/ai-report.ts:11-18 | every gap survives encoding and re-validation |
| ReportSchema.RecommendationRoundTrip | server/routes/ai-report.ts:24-27 | every recommendation survives encoding and re-validation |
| ReportSchema.StringsRoundTrip | server/routes/ai-report.ts:8 | every string list survives encoding and re-validation |
| ReportSchema.GapsRoundTrip | server/routes/ai-report.ts:9-20 | every gap list survives encoding and re-validation |
| ReportSchema.RecommendationsRoundTrip | server/routes/ai-report.ts:22-29 | every recommendation list survives encoding and re-validation |
| ReportSchema.SummaryOnly | server/routes/ai-report.ts:5-31 | an object holding only a summary validates, with every default filled in |
| ReportSchema.GapNameOnly | server/routes/ai-report.ts:11-18 | a gap holding only a name gets "" descriptions and "Medium" levels |
| AiReport.PayloadOk | server/routes/ai-report.ts:35-37 | the 400 guard: a body, a truthy organisation and an array of responses |
| AiReport.ResolveApiKey | server/routes/ai-report.ts:39 | absent iff none of the three variables is set to a non-empty value; otherwise the first one that is, in the order OPENAI_API_KEY, OPENAI_API_TOKEN, GPT_API_KEY |
| AiReport.Dataset | server/routes/ai-report.ts:48-56 | one row per answer |
| AiReport.DatasetRoundTrip | server/routes/ai-report.ts:48-56 | the projection keeps order and copies id, function, category, control, prompt, response and rating unchanged |
| AiReport.RowsRoundTrip | server/routes/ai-report.ts:48-56 | every dataset is the projection of the answers it describes |
| AiReport.ServerFunctionAverages | server/routes/ai-report.ts:59-68 | the loop yields one average per function present, in first-seen order, each total/count |
| AiReport.ServerAgreesWithClient | server/routes/ai-report.ts:59-68 | the server's averages of the dataset equal the client's averages of the same answers |
| AiReport.LeadingSpace | server/routes/ai-report.ts:113 | counts exactly the leading white space: every counted character is white space and the next one is not |
| AiReport.TrailingSpace | server/routes/ai-report.ts:113 | counts exactly the trailing white space: every counted character is white space and the one before is not |
| AiReport.Trim | server/routes/ai-report.ts:113 | the result is an infix with only white space cut from either side and no white space at its ends |
| AiReport.TrimIdempotent | server/routes/ai-report.ts:113 | trimming twice equals trimming once |
| AiReport.ModelContent | server/routes/ai-report.ts:113 | a string at choices[0].message.content gives exactly its trimmed text; an object there whose `trim` member is present and not null makes the call throw; anything else (absent, number, array, object without `trim`) yields undefined |
| AiReport.IndexOf | server/routes/ai-report.ts:120 | -1 iff the character is absent, otherwise its first position |
| AiReport.LastIndexOf | server/routes/ai-report.ts:121 | -1 iff the character is absent, otherwise its last position |
| AiReport.Slice | server/routes/ai-report.ts:123 | the substring for in-range bounds, empty when end ≤ start |
| AiReport.ExtractJsonText | server/routes/ai-report.ts:119-124 | unchanged if `{` or `}` is missing; the inclusive span from the first `{` to the last `}` when first ≤ last, starting with `{` and ending with `}`; empty when last < first |
| AiReport.ExtractIdempotent | server/routes/ai-report.ts:119-124 | extracting twice equals extracting once |
| AiReport.GenerateAssessmentReport | server/routes/ai-report.ts:33-151 | 400 before anything else on a bad payload; 503 without a key; 502 on HTTP error, empty content, unparsable JSON or schema mismatch; 500 on a thrown call; otherwise 200 with the validated report, the per-function averages of the answers and totalQuestions = number of answers |
| Assessments.ParseMaturity | server/routes/assessments.ts:22-28 | accepted iff the member is one of the numbers 0, 1, 2, 3, 4, and then it is that rating |
| Assessments.MaturityRoundTrip | server/routes/assessments.ts:22-28 | every rating is accepted as itself |
| Assessments.ParseNistFunction | server/routes/assessments.ts:9-16 | accepted iff the member is one of the six tags |
| Assessments.ParseMeta | server/routes/assessments.ts:7-20 | an object with string id, category, control and prompt and a valid function tag, copied unchanged |
| Assessments.ParseItem | server/routes/assessments.ts:6-29 | an accepted item has a non-empty response, valid metadata and a literal rating, all read from the object |
| Assessments.Items | server/routes/assessments.ts:35 | accepted iff every element is a valid item, element by element |
| Assessments.ParseSubmission | server/routes/assessments.ts:31-36 | an accepted submission has an organisation of at least 2 characters, a valid e-mail, at least one answer and every answer valid, all read from the body |
| Assessments.MetaRoundTrip | server/routes/assessments.ts:7-20 | all metadata survives encoding and validation |
| Assessments.ItemRoundTrip | server/routes/assessments.ts:6-29 | every item with a non-empty response survives encoding and validation |
| Assessments.ItemsRoundTrip | server/routes/assessments.ts:35 | every list of valid items survives encoding and validation |
| Assessments.SubmissionRoundTrip | server/routes/assessments.ts:31-36 | every valid submission is accepted unchanged, so the schema accepts exactly the valid submissions |
| Assessments.SubmissionValid | server/routes/assessments.ts:31-36 | what the schema adds to the types: organisation of at least 2 characters, a valid e-mail, at least one answer, every answer valid |
| Assessments.ShortOrganizationRejected | server/routes/assessments.ts:32 | an organisation shorter than 2 characters is refused |
| Assessments.NoResponsesRejected | server/routes/assessments.ts:35 | an empty answer list is refused |
| Assessments.FormSubmissionAccepted | server/routes/assessments.ts:31-36 | whatever the client's form accepts and builds, the server's schema accepts unchanged |
| Assessments.ResponseRows | server/routes/assessments.ts:81-92 | one row per answer, in order, each tagged with the header id and reading back as that answer |
| Assessments.ResponseRowsStep | server/routes/assessments.ts:81-92 | one more loop step appends exactly that answer's row |
| Assessments.IdsOf | server/routes/assessments.ts:74 | the ids of the header rows, in order |
| Assessments.Store.constructor | server/routes/assessments.ts:51-61 | an empty, consistent store outside any transaction |
| Assessments.Store.Begin | server/routes/assessments.ts:63 | opens a transaction and records the tables as they are |
| Assessments.Store.InsertAssessment | server/routes/assessments.ts:64-74 | appends one header row with a fresh id taken from the sequence, which advances |
| Assessments.Store.InsertResponse | server/routes/assessments.ts:76-91 | appends one answer row naming an existing header |
| Assessments.Store.Commit | server/routes/assessments.ts:94 | ends the transaction keeping the rows |
| Assessments.Store.Rollback | server/routes/assessments.ts:97 | restores both tables to their state at BEGIN, leaving the id sequence advanced |
| Assessments.RowsFor | server/routes/assessments.ts:81-92 | a selection of the table: every selected row comes from the table and carries the id, and every table row carrying the id is selected |
| Assessments.FindHeader | server/routes/assessments.ts:74 | a found header carries the id; absent iff no header has it |
| Assessments.RowsForAppend | server/routes/assessments.ts:81-92 | selecting a header's rows distributes over appended rows |
| Assessments.RowsForNone | server/routes/assessments.ts:81-92 | a table with no row for the id yields no rows |
| Assessments.RowsForAll | server/routes/assessments.ts:81-92 | rows all tagged with the id are selected whole |
| Assessments.FreshIdUnused | server/routes/assessments.ts:64-74 | no stored answer row carries the id the next header insert receives |
| Assessments.ItemsOfRowsBack | server/routes/assessments.ts:76-92 | reading the answer rows written for a submission gives back its answers in order |
| Assessments.InsertAnswers | server/routes/assessments.ts:81-92 | inserts one row per answer in order inside the open transaction; stops at the first failing insert and reports it |
| Assessments.StoredReadsBack | server/routes/assessments.ts:63-95 | after the inserts, reading the new id back gives exactly the submission, its answers in order |
| Assessments.Persist | server/routes/assessments.ts:60-105 | without a failure: 201 with the new id, one header row and one row per answer appended in order, and the submission readable back; on any failure: 500 with both tables as before |
| Assessments.SubmitAssessment | server/routes/assessments.ts:38-106 | an invalid body gives 400 and leaves the store untouched; no pool gives 503; otherwise the outcome of the transaction |

## Left out

- PDF drawing is not modelled. This covers layout, page breaks, background painting, paragraph splitting, bar widths, colours and the logo. These are rendering-library and browser I/O with no visible behaviour.
- The `fetch` calls are not modelled. That includes the client's call to the report endpoint, the server's call to the chat-completions API and the prompt text. The server call's outcome is the `upstream` parameter of `AiReport.GenerateAssessmentReport`.
- `JSON.parse` and `resp.json()` are not modelled; they become the `parse` parameter and the `HttpOk(None)` outcome. zod's `.email()` is not modelled either; it becomes the `isEmail` parameter.
- `toFixed(2)` formatting is not modelled. Averages, percentages and the dashboard shares are exact rationals, not IEEE doubles.
- The catalogue's control and prompt prose is not modelled. Only question ids, functions and categories are kept.
- Error `details` payloads are not modelled. This covers zod's `flatten()`, the upstream error text and exception messages. The 503 `message` text and the 200 reply's `ok: true` are left out as well. Only status codes and `error` strings are modelled.
- The `dataset` mapping in ai-report is not modelled for untyped input; the model's request carries typed answers only. The handler validates no element. A null or undefined element, or one without `meta`, throws outside the `try`. Any other malformed element flows on. For example, `{meta: {id: "x"}, maturity: "3"}` lands under the key `"undefined"`, `total += "3"` concatenates strings, and the 200 reply carries a NaN average.
- `AiReport.ModelContent`: an object whose `trim` member is callable cannot come out of JSON, so a `trim` member that is present and not null is modelled as the call throwing (500).
- `Catalog.FormValid`: the rating is an integer 0..4. The form's `z.coerce.number().min(0).max(4)` would also admit a fraction such as 2.5, which the rating selector never offers. The form's `min(2)` on the organisation and `min(1)` on each response count characters here, not UTF-16 code units as zod does. A single astral-plane character such as "𝔸" has length 2 in JavaScript and passes the form, but fails `FormValid`.
- `Assessments.ParseSubmission`: `min(2)` and `min(1)` count characters, not UTF-16 code units. The same single astral-plane character passes the server schema but is refused here.
- `Assessments.SubmitAssessment`: the `console.error` logging on the 500 path is not modelled; it is output only and does not change the reply or the store.
- `Assessments.Persist`: a failing ROLLBACK and the release of the pooled connection are not modelled. A failing BEGIN, header insert, answer insert or COMMIT is modelled through the `fault` parameter.
- The pool's lazy creation in the server's database helper is not modelled. It becomes the `db == null` case.
- Express routing is not modelled, nor are toasts, the React form wiring and the DOM event dispatch.
- `hslToRgb` and `getBrandRgb` are not modelled; they are floating-point colour conversion over a CSS read.
