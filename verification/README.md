# Deep research loop

A Dafny model of the `deepResearch` tool of the Deep-Research-Agent, the `execute` closure in
`src/app/agents.ts`. The tool runs a bounded research loop over a mutable `researchState` record.
Each iteration does the following:

- checks a time budget;
- counts itself in `currentDepth`;
- searches for `nextSearchTopic || topic`;
- extracts findings from the extra URL `urlToSearch` and the first three search results;
- asks a language model to analyse all findings so far;
- records the summary, then stops or carries the first gap forward as the new topic.

After the loop, the findings and summaries are rendered into the synthesis prompt.

The model is split into five modules:

- `Wrappers` (`wrappers.dfy`): `Option`, standing in for `null`/`undefined`.
- `ResponseCleanup` (`cleanup.dfy`): the clean-up of the analysis reply before `JSON.parse`. It removes every backtick, then one leading case-insensitive `json` and the whitespace after it (the regular expression `^json\s*`), then trims. `IsWhitespace` is the ECMAScript `\s`/`trim` set.
- `Extraction` (`extraction.dfy`): the per-URL extraction and the order-preserving join of `extractFromUrls`.
- `Rendering` (`rendering.dfy`): the `[From <source>]: <text>` and `[Summary]: <s>` lines, joined with line feeds, and a splitter that reads them back.
- `Research` (`research.dfy`) holds two things:
  - The specification: the pass function `Iterate`, built from phase functions (`Searched`, `Analyse`, `Replan`, `Failure`), and the whole loop `Run` (with `Pass` and `After`). `Run` returns the final state, the exit reason and one event per started iteration.
  - The imperative program: the class `ResearchState` with the record's fields, and the method `Execute` with its `while` loop. `Execute` delegates its body to `Iteration`, `ExtractAndAnalyse` and `RecordAndReplan`. Each method is proved to compute its specification function.
- `ResearchProperties` (`research_properties.dfy`): what one pass and the whole loop guarantee.

The outside world is an `Env` value of total functions. Four of them are indexed by the iteration number k, the value of `currentDepth` when the iteration starts, counting from 0:

- the time check;
- the search call;
- the extraction call;
- the analysis model's reply.

Two depend on their input alone:

- the URL parser behind `new URL`;
- `JSON.parse(...).analysis`.

The empty string is never accepted as a URL. So the empty `urlToSearch` of the first iteration never contributes findings.

Three behaviours of the code that are easy to misread:

- **The `json` tag.** `^json\s*` removes a leading `json` even when no whitespace follows it: `jsonify` becomes `ify`. `CleanTagged` allows an empty `w` for this reason.
- **A present but falsy `analysis` member.** `!analysis` sends it down the failure path. It is not treated as an empty analysis.
- **A reply that asks to continue but has no `gaps` list.** Reading `gaps.length` throws. The exception ends the tool call (`Exit.Threw`, `Completion.Failed`) without a synthesis.

## Model

| member | source | states |
|---|---|---|
| ResponseCleanup.RemoveBackticks | src/app/agents.ts:147 | no backtick is left, and the text does not grow |
| ResponseCleanup.RemoveBackticksKeepsOthers | src/app/agents.ts:147 | every other character is kept as often as it occurs: the multiset of the result is that of the input without backticks |
| ResponseCleanup.RemoveBackticksAppend | src/app/agents.ts:147 | the removal works character by character: it distributes over concatenation |
| ResponseCleanup.RemoveBackticksIdentity | src/app/agents.ts:147 | text without backticks is unchanged, so the removal is idempotent |
| ResponseCleanup.TrimStartShape | src/app/agents.ts:148-149 | the leading-whitespace removal drops exactly the longest whitespace prefix and keeps the rest as a suffix |
| ResponseCleanup.TrimEndShape | src/app/agents.ts:149 | the trailing-whitespace removal drops exactly the longest whitespace suffix and keeps the rest as a prefix |
| ResponseCleanup.Trim | src/app/agents.ts:149 | `trim` leaves text with no whitespace at either end, never longer |
| ResponseCleanup.TrimShape | src/app/agents.ts:149 | `trim` returns a middle slice of its input with only whitespace before and after it |
| ResponseCleanup.TrimStartAbsorbs | src/app/agents.ts:148 | whitespace in front makes no difference to the leading removal |
| ResponseCleanup.TrimEndAbsorbs | src/app/agents.ts:149 | whitespace behind makes no difference to the trailing removal |
| ResponseCleanup.TrimExact | src/app/agents.ts:149 | `trim` of a trimmed middle surrounded by any whitespace gives back exactly that middle (with TrimShape: `trim` is fully characterised) |
| ResponseCleanup.TrimIdentity | src/app/agents.ts:149 | trimmed text is its own trim |
| ResponseCleanup.StripJsonTag | src/app/agents.ts:148 | without a leading case-insensitive `json` the text is unchanged; with one, at least those four characters go |
| ResponseCleanup.StripJsonTagShape | src/app/agents.ts:148 | with a leading tag, the tag and all whitespace after it go and the rest is kept as a suffix starting with a non-space |
| ResponseCleanup.Clean | src/app/agents.ts:147-149 | the cleaned reply has no whitespace at either end and is no longer than the reply |
| ResponseCleanup.CleanHasNoBackticks | src/app/agents.ts:147-149 | the cleaned reply holds no backtick |
| ResponseCleanup.CleanTagged | src/app/agents.ts:147-149 | a tagged reply without backticks is cleaned to the trimmed body, whether or not whitespace follows the tag |
| ResponseCleanup.CleanUntagged | src/app/agents.ts:147-149 | an untagged reply without backticks is only trimmed |
| ResponseCleanup.RemoveFences | src/app/agents.ts:147 | the fences of a code block go and leave its content unchanged |
| ResponseCleanup.CleanFenced | src/app/agents.ts:147-149 | a reply fenced as a `json` code block is cleaned to its trimmed body |
| Extraction.ExtractFromUrl | src/app/agents.ts:78-105 | a rejected URL or a failed or throwing extraction gives no findings; an array payload gives one finding per element in element order; any other payload gives exactly one finding; every finding's source is the URL |
| Extraction.ExtractFromUrls | src/app/agents.ts:76-108 | every finding comes from one of the URLs and from one that `new URL` accepts |
| Extraction.ExtractFromUrlsAppend | src/app/agents.ts:107-108 | the join keeps input order: the findings of a concatenation of URL lists are the findings of each list in turn |
| Extraction.ExtractFromUrlsContiguous | src/app/agents.ts:107-108 | the findings of the URL at position i form one block, right after those of the URLs before it |
| Extraction.ExtractFromUrlsSplitAt | src/app/agents.ts:107-108 | the findings split around any URL: those of the URLs before it, its own, then those of the URLs after it |
| Extraction.ExtractFromUrlAsWritten | src/app/agents.ts:78-105 | the extraction as written: it agrees with the intended extraction where a global `prompt` exists, and gives no findings where none does |
| Extraction.UnboundPromptLosesFindings | src/app/agents.ts:85 | a valid URL whose extraction succeeds contributes nothing as written under Node.js, but contributes its finding in the intended extraction |
| Extraction.RejectedUrlAddsNothing | src/app/agents.ts:79-84 | a URL that `new URL` rejects adds nothing, whatever the service would do |
| Extraction.NothingExtracted | src/app/agents.ts:99-105 | when the service fails for every URL, the join holds no finding |
| Extraction.ExtractFromUrlsCount | src/app/agents.ts:76-108 | the number of findings is the sum of the per-URL payload sizes over accepted, successful URLs |
| Rendering.FindingLine | src/app/agents.ts:125 | a finding's line holds a line feed only if its source or text does |
| Rendering.SummaryLine | src/app/agents.ts:236 | a summary's line holds a line feed only if the summary does |
| Rendering.SplitJoin | src/app/agents.ts:126 | joining non-empty lists of lines without line feeds and splitting again gives the lines back |
| Rendering.RenderFindingsLines | src/app/agents.ts:124-126 | the rendered findings are one line per finding, in order |
| Rendering.RenderSummariesLines | src/app/agents.ts:235-237 | the rendered summaries are one line per summary, in order |
| Research.AnalyzeAndPlan | src/app/agents.ts:146-161 | a failed call or a reply that cleans to "" gives no analysis; otherwise the analysis is what the parser makes of the cleaned reply |
| Research.TopUrls | src/app/agents.ts:70-72 | the first three URLs, or all of them when there are fewer |
| Research.Failure | src/app/agents.ts:56-64 | a failure keeps the depth and records its event |
| Research.Replan | src/app/agents.ts:197-200 | replanning keeps the depth and records the event |
| Research.Analyse | src/app/agents.ts:179-200 | the analysis phase keeps the depth and records the analysed event |
| Research.Searched | src/app/agents.ts:56-200 | every started iteration keeps the counted depth and records an event |
| Research.Iterate | src/app/agents.ts:41-200 | a pass that does not break has counted one iteration and recorded its event |
| Research.RunUnfold | src/app/agents.ts:41-202 | the loop from a state inside the depth bound ends where the first pass breaks, or where the loop from the pass' state ends |
| Research.ResearchState.constructor | src/app/agents.ts:28-38 | the fresh record: no findings or summaries, empty next topic and URL, zero counters, threshold 3 |
| Research.RecordAndReplan | src/app/agents.ts:179-200 | the record and the topic after the analysis are those of `Analyse`, and it breaks exactly when `Analyse` does |
| Research.ExtractAndAnalyse | src/app/agents.ts:69-200 | after a successful search, the record and the topic are those of `Searched` |
| Research.Iteration | src/app/agents.ts:41-200 | one execution of the loop body yields the record, topic and break reason of `Iterate` |
| Research.Execute | src/app/agents.ts:24-244 | the loop ends for the reason `Run` gives, and the tool call fails or asks for the synthesis of `Run`'s final topic, findings and summaries |
| ResearchProperties.FailureCount | src/app/agents.ts:57 | at most one failure per event |
| ResearchProperties.AnalysedCount | src/app/agents.ts:179 | at most one analysis per event |
| ResearchProperties.RecordedSummariesCount | src/app/agents.ts:183 | one recorded summary per analysed iteration |
| ResearchProperties.AnalyseFacts | src/app/agents.ts:179-200 | for any analysis: findings and depth kept, one summary appended, next topic and URL overwritten ("" without analysis), a missing analysis counted as a failure, stop exactly when the analysis says stop or names no gap, first gap as topic otherwise |
| ResearchProperties.IterateTimeCheck | src/app/agents.ts:45-50 | when the time is up the pass changes nothing, records no event and stops with TimeUp; only then does it stop with TimeUp; otherwise it counts one iteration; a pass never stops with DepthReached |
| ResearchProperties.IterateSearch | src/app/agents.ts:53-65 | a started iteration searches for `nextSearchTopic`, or the topic when that is empty, and its event follows the search outcome; a throwing search ends the loop |
| ResearchProperties.IterateFailures | src/app/agents.ts:56-64 | the counter rises by exactly one on a failed search or a missing analysis, and the pass breaks for too many failures exactly when a failure brings it to 3 |
| ResearchProperties.IterateFindings | src/app/agents.ts:171-179 | an analysed iteration appends exactly the findings of `[urlToSearch] + first three results`, in order, and analyses all findings so far; other passes leave the findings alone |
| ResearchProperties.IterateRecord | src/app/agents.ts:180-183 | an analysed iteration appends one summary (`""` without analysis) and overwrites the next topic and URL; other passes leave all three alone |
| ResearchProperties.IterateReplan | src/app/agents.ts:197-200 | after an analysis the loop goes on exactly when it asks to continue and names a gap; the first gap becomes the topic (the old one when it is ""); the next query is `nextSearchTopic`, else that topic; continuing without a gaps list throws |
| ResearchProperties.IterateTopic | src/app/agents.ts:200 | only an analysis that lets the loop go on changes the topic |
| ResearchProperties.RejectedExtraUrl | src/app/agents.ts:171-174 | an extra URL that `new URL` rejects adds nothing: only the top results count |
| ResearchProperties.FirstIterationFindings | src/app/agents.ts:171-174 | in the first iteration the extra URL is "" and only the top results count |
| ResearchProperties.AnalyzeFencedReply | src/app/agents.ts:146-157 | a fenced `json` reply is parsed from its trimmed body, and an empty body gives no analysis |
| ResearchProperties.RunDepth | src/app/agents.ts:41-50 | `currentDepth` rises by one per started iteration, never passes `maxDepth`, and the loop ends on its guard only at `maxDepth`; past the bound nothing runs |
| ResearchProperties.AfterDepth | src/app/agents.ts:41-50 | the same depth bound for the rest of the loop after one pass |
| ResearchProperties.RunEventsBound | src/app/agents.ts:41-50 | a run records at most as many events as the depth left, and none once `maxDepth` is reached |
| ResearchProperties.RunTimeLeft | src/app/agents.ts:45-48 | every started iteration found time left at its check |
| ResearchProperties.AfterTimeLeft | src/app/agents.ts:45-48 | the same, for the rest of the loop after one pass |
| ResearchProperties.RunTimeUp | src/app/agents.ts:45-48 | the loop ends on the time check only when the time is up at the depth it reached |
| ResearchProperties.AfterTimeUp | src/app/agents.ts:45-48 | the same, for the rest of the loop after one pass |
| ResearchProperties.RunFailures | src/app/agents.ts:56-64 | the counter ends at its start plus the number of failures, never above 3, and at 3 exactly when the loop ends for too many failures |
| ResearchProperties.AfterFailures | src/app/agents.ts:187-195 | the same, for the rest of the loop after one pass |
| ResearchProperties.RunFindings | src/app/agents.ts:176 | findings are append-only: the final findings are the initial ones followed by each analysed iteration's additions, in order |
| ResearchProperties.AfterFindings | src/app/agents.ts:176 | the same, for the rest of the loop after one pass |
| ResearchProperties.RunWithoutExtraction | src/app/agents.ts:171-176 | when no extraction ever succeeds, the loop ends with the findings it started with |
| ResearchProperties.AfterWithoutExtraction | src/app/agents.ts:171-176 | the same, for the rest of the loop after one pass |
| ResearchProperties.UnboundPromptRunHasNoFindings | src/app/agents.ts:85 | the as-written extraction without a global `prompt` behaves as a failing service for every URL, and a whole run under it from a fresh record ends with no findings and an empty findings block in the synthesis prompt |
| ResearchProperties.RunSummaries | src/app/agents.ts:183 | summaries are append-only, one per iteration whose search succeeded |
| ResearchProperties.AfterSummaries | src/app/agents.ts:183 | the same, for the rest of the loop after one pass |
| ResearchProperties.ExecuteBounds | src/app/agents.ts:24-50 | from a fresh record: depth = number of started iterations ≤ max(maxDepth, 0) (so at most one with the default depth 1); failures ≤ 3; one summary per analysed iteration; the findings are exactly the additions |

## Findings

| source | as written | input that shows it | evidently intended | confidence | as-written member | corrected member |
|---|---|---|---|---|---|---|
| src/app/agents.ts:85 | the debug line after URL validation reads `prompt`, a name nothing in scope binds; where the runtime has no global `prompt` (Node.js) the read throws a ReferenceError, and the catch at lines 102-105 returns `[]` before the extraction service is called | URL `https://example.org` accepted, with an extraction that would return the single text `fact`: as written no finding, so the loop only ever analyses and synthesises empty findings | log the extraction prompt, or nothing, and go on to call the service, which yields the finding `[From https://example.org]: fact` | medium: depends on the runtime not providing a global `prompt`; not executed | Extraction.ExtractFromUrlAsWritten, Extraction.UnboundPromptLosesFindings, ResearchProperties.UnboundPromptRunHasNoFindings | Extraction.ExtractFromUrl |

The rest of the model uses the intended extraction `ExtractFromUrl`.

## Left out

- The network and model calls (the Firecrawl search and extract calls, the three `generateText` calls) are functions of `Env`. The prompt wording is not modelled.
- `JSON.parse` and the reading of `.analysis` are the `parse` function of `Env`. It returns None when parsing throws or the member is falsy. Field values are taken already normalised: a missing or falsy string reads as "", `shouldContinue` is its truthiness, and a missing `gaps` is None. Non-string field values and a `gaps` that is not an array are not modelled.
- `Date.now`, the 90-second limit and the minutes-remaining figure in the analysis prompt are replaced by the per-iteration flag `timeUp(k)`.
- `Promise.all` concurrency is modelled as a sequential map followed by concatenation. Only the order of the join is observable.
- A URL that appears twice in one iteration's list (the extra URL equal to a search result) gets the same extraction outcome both times. The program makes two independent calls.
- A search result without a `url` field is not modelled. URLs are strings.
- Logging, the zod parameter schema, `completedSteps`, `totalExpectedSteps` and `nextSteps` are left out. None of them affects control flow.
- The tool's schema declares only `topic`, so at run time `maxDepth` takes its default 1. `Execute` takes any `maxDepth`, and ExecuteBounds covers the default.
- The final synthesis call is not made. `Execute` returns the request it would send: topic, rendered findings and rendered summaries. An exception from that call is not modelled.
- The outer `agent` wrapper and the process entry point are not part of this model.
