# A verified model of the VNPT multiple-choice answering pipeline

The system answers Vietnamese multiple-choice questions. `predict.py` loads the
questions, labels their choices `A.`, `B.`, … (`transform_choices`), and skips every
question whose qid is already in the JSONL inference log. It runs each remaining
question through a LangGraph agent:

- a router asks a small model for a category (`toxic`, `math`, `reading` or `rag`);
- exactly one solver then writes an answer letter and a reasoning string.

The driver appends one record per question to the log. A question that raises an
ordinary exception is logged with the fallback answer `C` and the category `error`.
The first rate-limit exception stops the run. The log is then consolidated into
`submission.csv`, or into `submission_emergency.csv` when a rate limit stopped the run.

The four solvers:

- **math**: a large model writes Python code, a REPL runs it once, and a second model
  picks a letter.
- **rag**: retrieves from Qdrant and fuses the rankings with Reciprocal Rank Fusion.
  It deduplicates and budgets a cited context, then asks for a letter.
- **reading**: asks for a letter directly.
- **toxic**: looks for a refusal phrase among the labelled choices.

`evaluate.py` compares the log with the ground truth.

The offline pipeline has two parts:

- `data_pipeline/ingest.py` cuts crawled legal documents into article chunks, or into
  overlapping paragraph blocks.
- `data_pipeline/embedder.py` embeds those chunks with retry and backoff. It upserts
  them in batches of 50 and keeps a resumable checkpoint.

Each Dafny module follows one source file. The module is functional where the source
only computes values, and imperative where the source updates things in place. The
shared agent state is a class whose fields the nodes update, and each node may write
only the fields the source writes. The inference log and the output files are fields
of the `Outputs` class. The checkpoint and the vector store are classes that the
embedding loop updates. Every call to an external model, to Qdrant, to the REPL or to
MD5 is a parameter. An API call is an `Outcome`: `Ok`, `RateLimited` or `Failed`.
`Client` states what each client method does with the outcome:

- a rate limit is re-raised;
- any other failure of a chat call becomes `""`;
- any other failure of an embedding call becomes 1024 zeros.

Where the design notes and the code disagree, the model follows the code:

- The design describes an automatic policy that waits for the next quota hour and
  retries the same question. `predict.py` has only the manual policy: it stops at
  the first rate limit and writes the emergency table.
- The design describes sorted, last-write-wins consolidation with one row per qid.
  `consolidate_log_to_csv` writes one row per parseable log line, in log order,
  without sorting or deduplicating.
- The design describes math self-correction with two repair attempts and scanning of
  the output for error names. The solver runs the generated code exactly once.
- The design describes a router short-circuit through a JSON `toxic_detected` field.
  The router only scans the reply for the four keywords.
- The design describes a stop-sentinel check before each question. `predict.py` has
  none.
- The design takes the RAG answer letter from the start of the reply. The code takes
  the first standalone capital anywhere in the upper-cased reply.
- The fusion docstring (`rag/solver.py:87`) says `1/(k + rank)`. The code adds
  `1/(k + rank + 1)`, and the model uses the code.

Behaviours of the code that the model keeps as written, each stated by a lemma:

- Chapter and section headings inside an article body are never read, because the
  article loop skips over bodies. Every article therefore gets the chapter of the text
  before the first article (`Ingest.ChapterComesFromPreamble`).
- The RAG solver swallows a rate limit from the answer call instead of re-raising it
  (`RagSolver.RagAnswer`).
- A failed embedding call is masked as a zero vector, so the embedder stores a zero
  vector for that chunk (`Embedder.FailedCallStoresZeros`).
- Output that is only whitespace becomes `""`, not `No output` (`MathSolver.BlankOutputIsEmpty`).
- The 69th label is U+0085, which `strip` removes, so a list of 69 or more choices is
  not relabelled idempotently (`Utils.SixtyNinthLabelIsStripped`).

## Model

| member | source | states |
|---|---|---|
| Client.Call | src/client.py:41-47 | HTTP 429 or 401 gives a rate limit with the `[method] Rate Limit/Quota exceeded: HTTP n` message; other 4xx/5xx statuses, a missing body and an unreachable server fail; otherwise the body is returned |
| Client.ChatReply | src/client.py:65-73 | a chat method never fails: a rate limit is passed on unchanged, a success is kept, any other failure becomes the empty reply |
| Client.EmbeddingReply | src/client.py:204-212 | `get_embedding` never fails: a rate limit is passed on, any other failure becomes a vector of 1024 zeros |
| Client.MaskingIdempotent | src/client.py:65-73 | masking a masked outcome changes nothing, and a masked failed embedding has dimension 1024 |
| Client.ServerErrorGivesEmptyReply | src/client.py:41-73 | a non-quota HTTP error status reaches the caller of a chat method as `""` |
| State.AgentState.constructor | predict.py:122-131 | the initial state holds the item's qid, question and choices and empty category, context, answer and reasoning |
| Router.CategoryOf | src/agent/router.py:32-39 | the keyword tests always yield one of the four categories |
| Router.Classify | src/agent/router.py:30-39 | the router's category for any reply is one of the four categories |
| Router.KeywordAnywhere | src/agent/router.py:30-32 | stripping the reply does not change whether a keyword without spaces occurs in it |
| Router.ClassifyByPriority | src/agent/router.py:30-39 | `toxic` iff the upper-cased reply contains TOXIC; `math` iff MATH but not TOXIC; `reading` iff READING but neither; `rag` iff none of the three |
| Router.ClassifyIgnoresCase | src/agent/router.py:30 | lower-casing the reply does not change the category |
| Router.ClassifyIgnoresPadding | src/agent/router.py:30 | surrounding whitespace does not change the category |
| Router.EmptyReplyIsRag | src/agent/router.py:38-39 | the empty reply of a failed call is routed to `rag` |
| Router.MixedReplyTakesPriority | src/agent/router.py:32-35 | a reply naming MATH and TOXIC is `toxic` |
| Router.PaddedLowerCaseReply | src/agent/router.py:30-35 | `"  math\n"` is routed to `math` |
| Router.RouterNode | src/agent/router.py:28-42 | a rate limit propagates and leaves the category untouched; otherwise the node writes only `category`, which becomes `Classify` of the masked reply |
| Graph.Target | src/agent/graph.py:23-32 | the conditional edge has a target exactly for the four categories, and every target is a solver |
| Graph.Walk | src/agent/graph.py:20-38 | a walk of the compiled graph starts at the given node |
| Graph.ExactlyOneSolver | src/agent/graph.py:20-38 | from the entry point, a routed category visits router, its solver and END: exactly one solver runs |
| Graph.DispatchIsBijective | src/agent/graph.py:23-32 | different categories go to different solvers, and every solver is reachable from some category |
| Graph.RoutingNeverFails | src/agent/graph.py:23-32 | whatever the router's reply, the category it writes has an edge |
| Graph.Dispatch | src/agent/graph.py:23-38 | the solver selected by the category does its work on the state, and no other solver runs |
| Graph.Invoke | src/agent/graph.py:9-40 | `app.invoke`: a rate-limited router call leaves the state and the REPL untouched; otherwise the category is `Classify` of the reply and the matching solver's effect follows |
| Answers.LeadingCapital | src/agent/modules/reading/solver.py:66 | `re.match(r'([A-Z])', s)` finds a letter iff the first character is an ASCII capital, and returns that character |
| Answers.FirstStandalone | src/agent/modules/rag/solver.py:252 | returns the leftmost capital with a word boundary on both sides at or after the start, and no earlier one exists |
| Answers.StandaloneCapital | src/agent/modules/rag/solver.py:252 | `re.search(r'\b([A-Z])\b', s)` succeeds iff some standalone capital exists, and returns the leftmost one |
| Answers.ChoiceLabel | src/agent/modules/toxic/solver.py:27 | `^([A-J])\.` matches iff the choice starts with a letter A-J and a period, and yields that letter |
| Answers.StandaloneExamples | src/agent/modules/rag/solver.py:252-253 | `B` gives B, `ĐÁP ÁN: C` gives C, `A HOẶC B` gives A, and `ĐÁP ÁN` has no standalone capital |
| MathSolver.BodyStart | src/agent/modules/math/solver.py:11 | the code body of a fence found at `open` starts after its three backticks and within the reply |
| MathSolver.ExtractsFencedCode | src/agent/modules/math/solver.py:9-15 | for a reply ``pre```<tag>\n<code>```post`` whose tag is empty or `python` in any case, with no fence starting inside `pre` or inside the code (single backticks may occur in both), the extracted code is the stripped code |
| MathSolver.NoFenceMeansStrip | src/agent/modules/math/solver.py:13-15 | a reply without backticks is returned stripped |
| MathSolver.CodeToRun | src/agent/modules/math/solver.py:73-75 | the code run is the extracted block, or the raw reply when the extraction is empty; it is empty only for an empty reply |
| MathSolver.Repl.constructor | src/agent/modules/math/solver.py:7 | a fresh REPL has run nothing yet |
| MathSolver.Repl.Run | src/agent/modules/math/solver.py:81 | a run appends the code to the REPL's history, and its result depends on the code and on what ran before it |
| MathSolver.BlankOutputIsEmpty | src/agent/modules/math/solver.py:81-82 | whitespace-only output becomes `""`, not `No output` |
| MathSolver.MathAnswer | src/agent/modules/math/solver.py:126-134 | a rate limit from the code call escapes; otherwise the execution result is that of the REPL run on the extracted code, a rate limit from the selection call escapes, and else the answer is the selection reply's first character when it is a capital, otherwise `B`, and the reasoning is `Code executed. Result: ` followed by exactly the first 100 characters of the result |
| MathSolver.RateLimitedCodeGeneration | src/agent/modules/math/solver.py:70-71 | a rate limit on code generation escapes the node before anything runs |
| MathSolver.MathSolverNode | src/agent/modules/math/solver.py:17-137 | a rate limit leaves answer, reasoning and the REPL unchanged; otherwise the REPL runs `CodeToRun` of the reply exactly once, and answer and reasoning come from the completed step |
| ReadingSolver.ReadingAnswer | src/agent/modules/reading/solver.py:65-72 | the node escapes iff the call is rate limited; otherwise the answer is the reply's leading capital or `A`, and the reasoning is `Reading comprehension: ` plus exactly the reply's first 50 characters (all of it when shorter) |
| ReadingSolver.FailedCallAnswersA | src/agent/modules/reading/solver.py:65-72 | a failed call answers `A` with empty reasoning text after the prefix |
| ReadingSolver.ReadingSolverNode | src/agent/modules/reading/solver.py:6-75 | the node writes only answer and reasoning, as the step prescribes, or propagates the rate limit and writes nothing |
| ToxicChecker.FirstHit | src/agent/modules/toxic/solver.py:23-32 | returns the first choice that contains a refusal keyword (ignoring case) and is labelled A-J; no earlier choice is such a hit |
| ToxicChecker.FirstLabelled | src/agent/modules/toxic/solver.py:35-39 | returns the first choice labelled A-J; no earlier choice is labelled |
| ToxicChecker.VerdictIsChoiceLetter | src/agent/modules/toxic/solver.py:23-43 | the answer is always one letter from A to J; when some choice is labelled, the answer is the label of a choice |
| ToxicChecker.UnlabelledRefusalSkipped | src/agent/modules/toxic/solver.py:26-32 | a refusal without a label is passed over in favour of a later labelled refusal, whose first 50 characters fill the reasoning |
| ToxicChecker.ScanChoices | src/agent/modules/toxic/solver.py:23-43 | the nested keyword loop and the fallback loop compute the verdict `ToxicVerdict` |
| ToxicChecker.ToxicCheckerNode | src/agent/modules/toxic/solver.py:17-45 | the node writes only answer and reasoning, and they are the verdict for the state's choices |
| Utils.Letter | src/utils.py:36 | the `i`-th label is the character with code point `ord('A') + i` |
| Utils.MapChoices | src/utils.py:34-41 | labelling keeps the number of choices |
| Utils.Transformed | src/utils.py:27-49 | one output item per input item |
| Utils.TransformChoices | src/utils.py:27-49 | the loop computes `Transformed` of the data |
| Utils.TransformedFacts | src/utils.py:28-47 | the qid falls back from `qid` to `id` to `""`; the question defaults to `""`; each choice is kept when its stripped text starts with its letter and a period or space, and otherwise gets `X. ` in front |
| Utils.LabelSticks | src/utils.py:38-39 | a choice given the label `X. ` counts as labelled with `X`, unless `X` is whitespace |
| Utils.MapChoicesIdempotent | src/utils.py:34-41 | labelling labelled choices changes nothing while the labels are printable |
| Utils.TransformIdempotent | src/utils.py:27-49 | transforming transformed data again gives the same items |
| Utils.FirstLabelsPrintable | src/utils.py:36 | the first 68 labels are not whitespace |
| Utils.SixtyNinthLabelIsStripped | src/utils.py:36-38 | with 69 choices, transforming twice differs from transforming once |
| Utils.LabelledAfresh | src/utils.py:38-39 | a choice that does not start with its letter gets `X. ` in front |
| Utils.LabelsFour | src/utils.py:20-26 | four unlabelled choices become `A. …` to `D. …` |
| Utils.DocExample | src/utils.py:23-25 | the docstring's example input gives the docstring's output |
| LogLines.Field.Get | predict.py:23 | `record.get(key)` is a string exactly when the key holds a string |
| LogLines.Field.GetOr | predict.py:49 | `record.get(key, default)` uses the default for a missing key, but gives `None` for a JSON `null` |
| LogLines.QidAt | predict.py:22-23 | a qid read from a line comes from a well-formed record holding that string |
| Predict.GraphOutcome | predict.py:133-162 | with replies that are always strings, a graph run never fails; it is rate limited iff a rate limit escaped a node; otherwise the final state's answer, category and reasoning come out |
| Predict.ProcessedQids | predict.py:15-26 | the processed set is exactly the `record.get('qid')` values of the well-formed lines, malformed lines skipped |
| Predict.QidAtIsProcessed | predict.py:20-23 | the qid of every logged record is in the processed set |
| Predict.ProcessedQidsAppend | predict.py:15-26 | the processed set of a log with lines appended is the union of the two parts' sets |
| Predict.LoadProcessedQids | predict.py:15-26 | the loop collects exactly the qids of the well-formed lines |
| Predict.Worklist | predict.py:97 | the remaining items are the items whose qid was not processed, and no more |
| Predict.WorklistAppend | predict.py:97 | filtering distributes over concatenation and keeps order |
| Predict.WorklistKeepsDistinct | predict.py:97 | filtering keeps the qids distinct |
| Predict.LoggedFacts | predict.py:137-173 | a logged record carries the item's qid; a success logs the final answer and category and exactly the first 200 characters of the reasoning; an error logs `C`, `error` and exactly the first 200 characters of the message |
| Predict.Reached | predict.py:117-162 | the run processes items until the first rate limit: every earlier item completed, and the item it stops at was rate limited |
| Predict.AppendedFacts | predict.py:117-175 | one record per processed item, in order, each carrying that item's qid |
| Predict.Rows | predict.py:41-52 | at most one row per log line |
| Predict.RowsAppend | predict.py:44-50 | the table of a longer log is the old table followed by the new rows |
| Predict.RowsOfRecords | predict.py:46-50 | every record gives the row (`qid`, `answer` defaulting to `A`) |
| Predict.RowsOfAppended | predict.py:137-173 | the rows of a run's records are (qid, final answer), or (qid, `C`) for an errored item |
| Predict.ReadRows | predict.py:41-52 | the read loop builds the row table from the lines that parse |
| Predict.Written | predict.py:53-55 | the CSV is written only when there is at least one row, and is then exactly those rows |
| Predict.Outputs.AppendToLog | predict.py:28-31 | appending adds one line at the end of the log and changes nothing else |
| Predict.Outputs.ConsolidateLogToCsv | predict.py:39-56 | returns the number of rows; writes them to the chosen CSV (only if non-empty) and leaves the other CSV alone |
| Predict.ProcessWorklist | predict.py:117-175 | the log gains exactly the records of the items before the first rate limit; the result says whether one was hit |
| Predict.Run | predict.py:58-188 | no input: exit 1 with nothing written; otherwise the log gains the records of the remaining items up to the first rate limit; a rate limit gives exit 1 and the emergency CSV, a complete run gives exit 0 and the submission CSV |
| Predict.RunNeverRelogs | predict.py:94-97 | no record a run appends has the qid of a line already in the log |
| Predict.RunKeepsQidsUnique | predict.py:94-175 | with distinct input qids and a log without repeated qids, the log still has no repeated qid after the run |
| Predict.CompletedRunLeavesNothing | predict.py:94-109 | after a run that was not interrupted, a second run finds no remaining item |
| Predict.WorklistOfLogged | predict.py:105-109 | when every qid is processed there is nothing left to do |
| Predict.RunTable | predict.py:39-56 | consolidation after a run keeps the earlier rows as a prefix and adds one row per processed item |
| Predict.RateLimitFirstAppendsNothing | predict.py:154-162 | a rate limit on the first remaining item appends nothing |
| Predict.GraphRunsAreNeverFallbacks | predict.py:137-145 | a completed graph run is logged with its own category, never the fallback's |
| Evaluate.GroundTruth | evaluate.py:16-20 | at most one entry per ground-truth item |
| Evaluate.GroundTruthFacts | evaluate.py:20 | the keys are exactly the items' qids; an item's answer is kept unless a later item repeats its qid |
| Evaluate.Predictions | evaluate.py:22-32 | at most one prediction per log line |
| Evaluate.PredictionsKeys | evaluate.py:26-31 | the predicted qids are exactly the string qids of the well-formed lines |
| Evaluate.LastLineWins | evaluate.py:29 | the prediction for a qid is the answer of its last line, `""` when that line has no answer |
| Evaluate.LoadPredictions | evaluate.py:22-32 | the loop builds `Predictions` of the log |
| Evaluate.ScanMissing | evaluate.py:54-56 | scanning a qid without a prediction adds one to `missing` and nothing else |
| Evaluate.ScanCorrect | evaluate.py:57-59 | scanning a qid whose prediction matches ignoring case adds one to `correct` and nothing else |
| Evaluate.ScanWrong | evaluate.py:60-62 | scanning a qid whose prediction differs adds one to `wrong` and nothing else |
| Evaluate.Tally | evaluate.py:50-62 | one step of the loop keeps the three counters equal to the sizes of the three classes scanned so far |
| Evaluate.CountsAddUp | evaluate.py:64 | correct plus wrong plus missing is the number of ground-truth qids |
| Evaluate.Evaluate | evaluate.py:34-64 | the counters are the sizes of the correct, wrong and missing classes, and they add up to the ground-truth size |
| Evaluate.Partition | evaluate.py:50-62 | the three classes are disjoint and together cover the ground truth |
| Evaluate.ExtraPredictionIgnored | evaluate.py:48-52 | a prediction for a qid outside the ground truth changes no count |
| Evaluate.CaseOfPredictionIgnored | evaluate.py:57 | lower-casing a prediction changes no class |
| Evaluate.NullAnswerIsMissing | evaluate.py:29-54 | a last line whose answer is `null` makes that qid missing, not wrong |
| Retrieval.Tag | src/agent/modules/rag/solver.py:71-72 | each point of a search is paired with the query that found it, in order |
| Retrieval.SearchMultiQuery | src/agent/modules/rag/solver.py:42-78 | without a Qdrant client there are no hits; otherwise the hits of every query, in query order; when Qdrant honours `limit` and `score_threshold`, at most 10 hits per query, each scoring at least 0.3 |
| Retrieval.QueryHitsHonour | src/agent/modules/rag/solver.py:54-72 | when Qdrant honours `limit=k` and `score_threshold`, one query contributes at most 10 hits, each tagged with that query and scoring at least 0.3 |
| Retrieval.CollectedHonours | src/agent/modules/rag/solver.py:50-78 | when Qdrant honours them, the collected hits number at most 10 per query and all score at least 0.3 |
| Retrieval.HitsComeFromTheirQuery | src/agent/modules/rag/solver.py:53-72 | every collected hit was returned by the search for the query it is tagged with |
| Retrieval.RateLimitedQueryContributesNothing | src/agent/modules/rag/solver.py:54-76 | a rate-limited embedding is caught by the loop and the query gives no hits |
| Retrieval.FailedEmbeddingStillSearches | src/agent/modules/rag/solver.py:56-68 | a failed embedding is searched as the zero vector |
| Fusion.Contribution | src/agent/modules/rag/solver.py:105 | each rank contributes a positive amount of at most 1/61 |
| Fusion.QueryOrder | src/agent/modules/rag/solver.py:97-99 | the grouped queries are exactly the queries of the hits |
| Fusion.Ranking | src/agent/modules/rag/solver.py:97-99 | a query's ranking is no longer than the hits |
| Fusion.RankingMembers | src/agent/modules/rag/solver.py:97-99 | a query's ranking holds exactly the points hit by that query |
| Fusion.UnseenQueryHasNoRanking | src/agent/modules/rag/solver.py:97-99 | a query with no hit has an empty ranking |
| Fusion.RankedVotes | src/agent/modules/rag/solver.py:103 | `enumerate` pairs each point of a ranking with its rank |
| Fusion.TallyFacts | src/agent/modules/rag/solver.py:101-109 | the score table has one entry per voted id, in first-seen order; each score is the sum of the id's contributions; each point is the last one seen for the id |
| Fusion.VotesOfScore | src/agent/modules/rag/solver.py:102-108 | summing the votes of all groups gives the reference RRF score |
| Fusion.CountRanksIsTallyOf | src/agent/modules/rag/solver.py:103-109 | the inner loop over a ranking adds exactly that ranking's votes to the table |
| Fusion.SortDescFacts | src/agent/modules/rag/solver.py:112-116 | the sort is descending by score, a permutation, and stable |
| Fusion.GroupByQuery | src/agent/modules/rag/solver.py:96-99 | the grouping loop builds one ranking per query seen, in first-seen order |
| Fusion.ScoreGroups | src/agent/modules/rag/solver.py:101-109 | the scoring loops build the table of the votes of all groups |
| Fusion.ReciprocalRankFusion | src/agent/modules/rag/solver.py:84-118 | the method computes the fused list |
| Fusion.VotedIdsAreHitIds | src/agent/modules/rag/solver.py:98-109 | the ids that receive votes are exactly the retrieved ids |
| Fusion.UnsortedFacts | src/agent/modules/rag/solver.py:94-109 | before sorting, each retrieved id appears once, in first-seen order, with its RRF score and last point |
| Fusion.RankedFacts | src/agent/modules/rag/solver.py:112-116 | sorting keeps each entry's RRF score and point |
| Fusion.FusedPointsAreHitPoints | src/agent/modules/rag/solver.py:94-118 | fusion invents no point: every fused point is the point of one of the hits |
| Fusion.FusionListsEachHitOnce | src/agent/modules/rag/solver.py:94-118 | the fused list holds every retrieved id exactly once, each with the last point seen for it |
| Fusion.FusionOrdersByRrf | src/agent/modules/rag/solver.py:112-118 | the fused list is ordered by RRF score, highest first |
| Fusion.FusionBreaksTiesByFirstSeen | src/agent/modules/rag/solver.py:112-118 | ids with equal scores keep the order in which they were first seen |
| Fusion.TwoQueryFixture | src/agent/modules/rag/solver.py:97-118 | for two queries with rankings [1,3] and [2,3,1], the scores are 1/61+1/63, 2/62 and 1/61, fused as [1,3,2] |
| Context.PartIfSet | src/agent/modules/rag/solver.py:150-155 | a citation part is added iff the payload field is present and non-empty |
| Context.SourceOf | src/agent/modules/rag/solver.py:138-141 | the deduplication key is the first 200 characters of the stripped content |
| Context.Cut | src/agent/modules/rag/solver.py:161-165 | content within the 6000-character budget is kept whole; otherwise the block stops the loop when fewer than 200 characters remain, else it is cut to the remaining space and `...` is added |
| Context.Texts | src/agent/modules/rag/solver.py:167-168 | each block is rendered as its header, a newline and its content |
| Context.FormatContext | src/agent/modules/rag/solver.py:124-174 | the loop builds the assembled blocks joined by `\n\n---\n\n` |
| Context.BlocksFacts | src/agent/modules/rag/solver.py:136-172 | blocks follow the points' order and cite them; no two share a key; only points repeating an earlier key are dropped before the last block; each block starts within the budget; and the blocks end only when, past the last block, every point repeats a key, or the 6000-character budget is used up, or the first point with a new key has fewer than 200 characters left (so a new-key point that fits is always emitted) |
| Context.RestFacts | src/agent/modules/rag/solver.py:136-172 | the same, including the reasons for ending, from any point of the loop with the keys seen and the length used so far |
| Context.StoppedMeans | src/agent/modules/rag/solver.py:136-172 | the loop's stopping condition, read as a scan that skips repeated keys, holds exactly when every later point repeats a key, or the budget is used up, or the first later point with a new key no longer fits |
| RagSolver.AdvancedRagSearch | src/agent/modules/rag/solver.py:180-208 | the search builds `SearchContext`: one combined query, fusion, the first five points, formatting |
| RagSolver.SingleQuery | src/agent/modules/rag/solver.py:190-193 | searching a one-query list gives that query's hits |
| RagSolver.ContextPointsPassThreshold | src/agent/modules/rag/solver.py:193-206 | when Qdrant honours `limit` and `score_threshold`, the one query yields at most 10 hits and every point formatted into the context scores at least 0.3 |
| RagSolver.TopPointsFacts | src/agent/modules/rag/solver.py:200-201 | at most five distinct retrieved points, ordered by score, none outscored by a point that was left out; exactly five when five ids were retrieved |
| RagSolver.SearchContextFacts | src/agent/modules/rag/solver.py:186-208 | no client or no hits gives `""`; otherwise the context is the formatted top points of the combined query's hits |
| RagSolver.RateLimitedEmbeddingGivesNoContext | src/agent/modules/rag/solver.py:54-58 | a rate-limited query embedding leaves the RAG context empty |
| RagSolver.RagAnswer | src/agent/modules/rag/solver.py:247-264 | the node always completes with one capital letter; a rate limit answers `A` with `Error: ` and exactly the first 100 characters of the message and keeps the old context; otherwise the answer is the first standalone capital of the upper-cased stripped reply, or `A`, and the stored context is the first 500 characters |
| RagSolver.RagReasoningRecordsLength | src/agent/modules/rag/solver.py:256 | the reasoning reads `RAG: n chars context`, where the digits spell the context length |
| RagSolver.LowerCaseReply | src/agent/modules/rag/solver.py:252 | a lower-case letter reply is upper-cased before extraction |
| RagSolver.RagSolverNode | src/agent/modules/rag/solver.py:210-266 | the node never propagates a rate limit; answer, reasoning and context come from the step on the searched context |
| Embedder.Backoff | data_pipeline/embedder.py:167-178 | the wait is always between 30 and 300 seconds |
| Embedder.Backoffs | data_pipeline/embedder.py:176-178 | the `i`-th wait is the backoff of attempt `i` |
| Embedder.BackoffClosedForm | data_pipeline/embedder.py:167-178 | the wait in attempt `n` is min(30·2^n, 300) |
| Embedder.BackoffCapped | data_pipeline/embedder.py:178 | from the fifth attempt on, the wait is 300 seconds |
| Embedder.RetryStopsAtFirstAnswer | data_pipeline/embedder.py:169-174 | the loop waits once per rate limit and stops at the first other outcome, keeping an embedding only when it has 1024 dimensions |
| Embedder.AlwaysRateLimited | data_pipeline/embedder.py:169-182 | ten rate limits in a row give `None` after ten waits |
| Embedder.EmbedWithRetry | data_pipeline/embedder.py:166-182 | the loop returns what `RetryFrom` prescribes, with the waits it slept |
| Embedder.TotalWaitOfTenRateLimits | data_pipeline/embedder.py:166-182 | ten rate limits cost 2250 seconds of sleep |
| Embedder.RetryFacts | data_pipeline/embedder.py:166-182 | a returned embedding has dimension 1024; there are at most ten waits; wait `i` is min(30·2^i, 300) |
| Embedder.Loaded | data_pipeline/embedder.py:48-54 | no file gives no ids and total 0; otherwise the id set is the saved list's members, and the total is whatever was saved |
| Embedder.SaveLoadRoundTrip | data_pipeline/embedder.py:48-62 | loading a saved checkpoint gives back the same id set and total |
| Embedder.Checkpoint.Load | data_pipeline/embedder.py:48-54 | the in-memory checkpoint is `Loaded` of the file |
| Embedder.ListOf | data_pipeline/embedder.py:58 | `list(s)` lists every member once |
| Embedder.SaveCheckpoint | data_pipeline/embedder.py:56-62 | after saving, loading the file gives the checkpoint's ids and total |
| Embedder.PointId | data_pipeline/embedder.py:162-164 | the point id is below 2^63 |
| Embedder.Prepared | data_pipeline/embedder.py:206-212 | a chunk under 20 characters is skipped; otherwise the embedded text is its first 8000 characters, between 20 and 8000 long |
| Embedder.PointFor | data_pipeline/embedder.py:221-239 | a built point belongs to an unskipped chunk; it has a 1024-dimensional vector, an id below 2^63 and the seven payload keys, with the chunk id, the domain and the cut content |
| Embedder.Remaining | data_pipeline/embedder.py:189 | the remaining chunks are those whose id is not in the checkpoint |
| Embedder.BuiltAndRecorded | data_pipeline/embedder.py:221-242 | the ids recorded are exactly the chunk ids of the points built; every point comes from one remaining chunk and is well formed |
| Embedder.BatchesAppend | data_pipeline/embedder.py:244-250 | a batch of at most 50 after full batches adds exactly one upsert |
| Embedder.BatchesFacts | data_pipeline/embedder.py:244-258 | the upserts hold every point once, in order; every batch but the last holds 50 points; there are ⌈n/50⌉ of them |
| Embedder.CheckpointFile.constructor | data_pipeline/embedder.py:49-51 | the file holds the given content |
| Embedder.VectorStore.constructor | data_pipeline/embedder.py:245 | a new store has received no upsert |
| Embedder.VectorStore.Upsert | data_pipeline/embedder.py:245 | an upsert is recorded after the earlier ones |
| Embedder.Flush | data_pipeline/embedder.py:244-250 | one upsert of the batch; the total is updated and the saved file loads back as the checkpoint |
| Embedder.BuildPoint | data_pipeline/embedder.py:205-239 | builds `PointFor` the chunk |
| Embedder.Push | data_pipeline/embedder.py:240-250 | adding a point keeps the batching invariant and records its chunk id |
| Embedder.FinalFlush | data_pipeline/embedder.py:254-258 | the store has received `Batches` of all points; with no points nothing is saved, otherwise the file matches the checkpoint |
| Embedder.EmbedAll | data_pipeline/embedder.py:201-258 | the loop upserts the built points in batches of 50, records their ids, adds their number to the total, and saves a file that loads back as the checkpoint |
| Embedder.EmbedChunks | data_pipeline/embedder.py:184-258 | the same for the chunks not yet in the checkpoint; when no point is built, the total and the file are left as they were |
| Embedder.RecordedChunksHadContent | data_pipeline/embedder.py:208-242 | every id recorded belongs to a remaining chunk with at least 20 characters |
| Embedder.SkippedChunksNeverEmbedded | data_pipeline/embedder.py:189-209 | a chunk already recorded or too short never gets recorded by the run |
| Embedder.FailedCallStoresZeros | data_pipeline/embedder.py:171-173 | a failed embedding call still produces a point, with the zero vector |
| Ingest.Lookup | data_pipeline/ingest.py:60-63 | the primary key's value, else the alternate key's, else `""` |
| Ingest.ExtractDocMetadata | data_pipeline/ingest.py:55-70 | each of the four metadata fields is looked up under its two Vietnamese key names |
| Ingest.FirstLine | data_pipeline/ingest.py:114 | the first line is a prefix without newline, followed by a newline or the end |
| Ingest.ArticleTitle | data_pipeline/ingest.py:114-115 | the article title is a prefix of the stripped first line, at most 100 characters |
| Ingest.ArticleStep | data_pipeline/ingest.py:93-143 | one pass of the loop emits at most one chunk, advances by one part or by a header and its body, and carries the chapter and section on |
| Ingest.ChunkByArticle | data_pipeline/ingest.py:76-145 | the loop computes the article scan of the split parts |
| Ingest.ArticleScanFacts | data_pipeline/ingest.py:93-143 | every chunk is an article whose header matches `Điều n`, whose title has at most 100 characters, whose context header starts with the document title, and whose body exceeds 30 characters; at most one chunk per two parts |
| Ingest.HeaderForm | data_pipeline/ingest.py:119-124 | the context header is `[title] - chapter - Điều n: article title`, where the chapter is left out when empty and the `: title` part is left out when the title is empty |
| Ingest.HeadersOnlyScan | data_pipeline/ingest.py:93-143 | when the header parts name no chapter or section, every chunk keeps the chapter and section the scan started with |
| Ingest.ChapterComesFromPreamble | data_pipeline/ingest.py:87-104 | in a document split by `Điều` headers alone, every article gets the chapter and section found in the text before the first article |
| Ingest.Overlap | data_pipeline/ingest.py:187 | the overlap is the last 200 characters of a longer accumulator, and empty otherwise |
| Ingest.SemanticBlocks | data_pipeline/ingest.py:155-163 | cleaned content of at most 1500 characters gives a single `full_doc` chunk headed by the title |
| Ingest.BlockStep | data_pipeline/ingest.py:171-190 | one pass of the paragraph loop skips an empty paragraph, or appends it to the accumulator, or flushes at most one block and restarts the accumulator, numbering the flushed block |
| Ingest.BlocksOf | data_pipeline/ingest.py:168-199 | the paragraph loop and the final block compute `Accumulate` from the opening accumulator |
| Ingest.ChunkBySemanticBlocks | data_pipeline/ingest.py:147-201 | the paragraph loop computes `SemanticBlocks` |
| Ingest.AccumulateFacts | data_pipeline/ingest.py:168-199 | the blocks are numbered consecutively, each has more than 500 characters, and its stripped content is no longer than its character count |
| Ingest.FirstBlockKeepsPrefix | data_pipeline/ingest.py:168-190 | the first block starts with the accumulator it was begun with |
| Ingest.FlushCarriesOverlap | data_pipeline/ingest.py:177-188 | an overflowing paragraph flushes the accumulator as a block, and the next block starts with the title and the last 200 characters of the flushed one |
| Ingest.EnrichedTitleFacts | data_pipeline/ingest.py:227-230 | the enriched title is the title, followed by ` (số hiệu)` iff that number is non-empty |
| Ingest.ChunkIdInjective | data_pipeline/ingest.py:246 | `doc_id_i` determines both the document id and the position |
| Ingest.Tagged | data_pipeline/ingest.py:240-248 | each chunk is tagged with the document id, title, metadata and its position's chunk id |
| Ingest.Processed | data_pipeline/ingest.py:216-218 | content under 200 characters gives no chunks |
| Ingest.TagChunks | data_pipeline/ingest.py:240-248 | the tagging loop computes `Tagged` of the chunks |
| Ingest.ProcessDocument | data_pipeline/ingest.py:207-250 | the method computes `Processed` of the document |
| Ingest.ProcessedFacts | data_pipeline/ingest.py:240-248 | every chunk carries its document's id, title and metadata; equal chunk ids mean the same document and position |
| Ingest.FallbackToBlocks | data_pipeline/ingest.py:232-237 | three or more article chunks are kept as they are; fewer are replaced by the semantic blocks |

## Left out

- File and console I/O: JSON and CSV text, `print`, the detail log (`append_detail_log`), the logger, the configuration and directory handling. The log is a sequence of parsed lines. Files are `Option` values, where `None` means the file is missing.
- `load_data` and `save_transformed_data`: the driver receives the parsed items, or `None` when no input file exists.
- Sleeping, progress and ETA output, and `REQUEST_DELAY`: the model records the backoff waits as a sequence instead of sleeping.
- The prompt texts: every model call is an opaque `Outcome` parameter, so a reply does not depend on the prompt text.
- The LangGraph runtime: `Graph.Invoke` stands for `app.invoke` over the four edges. The driver receives the graph as a function from item to outcome. `Failed` stands for the exceptions a node may raise other than a rate limit.
- The Python REPL: what a `Repl` run prints or raises is decided by a behaviour parameter. `ReplRun.Raised` is an exception escaping `python_repl.run`. `ExecutionResult` renders it as the `except` branch at `math/solver.py:83-84` does. Which code raises and which code prints its error as text is part of the behaviour parameter and is not modelled.
- Qdrant: collection setup (`init_qdrant`) is left out. `query_points` is a search oracle. The model does not assume that every oracle applies the 0.3 threshold and the limit of 10. `Retrieval.Honours` states that Qdrant does, and the lemmas about the score floor and the per-query limit require it. `get_qdrant` is a `connected` flag.
- `clean_text` and the regular expressions of `ingest.py` (article split, header, chapter and section search): they are parameters of `Patterns`. The model fixes how the loops use them, not what they match.
- MD5 (`generate_point_id`): the digest is a parameter. Only the big-endian reading and the 2^63 reduction are modelled.
- Context.SourceOf: `hash(content[:200])` is modelled as equality of the 200-character prefixes, so hash collisions are not modelled.
- Floating point: RRF scores are exact rationals (`real`), so ties and sums are exact. The accuracy percentage of `evaluate.py` is not computed; the three counts are.
- Predict.GraphOutcome: a graph run never ends in `Failed`, because the client is abstracted to `Outcome` values whose `Ok` replies are strings. In the source, a reply whose JSON `content` is `null` makes a chat call return `None` without raising (`src/client.py:68`). The router's `.strip()` or a solver's regex then raises, and `predict.py:164-173` logs the C/error record for that item. The driver's handling of a `Failed` outcome is modelled, but `GraphOutcome` never produces one for a null reply.
- Utils.Letter: requires fewer than 0xD800 − 0x41 choices, because Dafny's `char` has no surrogate code points. Python would go on past that bound.
- Case mapping and `\w`: `Upper` and `Lower` map ASCII, Latin-1 (with `µ` to U+039C and `ÿ` to U+0178, and `ß` excepted) and the Vietnamese letters, and `\b` counts those letters as word characters. The rest of Unicode is not covered.
- Text.UpperChar: `ß` (U+00DF) is left unchanged, because Python upper-cases it to the two characters `SS` and the model maps one character to one. So `Evaluate.SameAnswer` calls a ground truth `ß` and a prediction `ss` different, where `evaluate.py:57` calls them equal.
- JSON values: log fields are missing, `null` or a string. Numbers and other JSON values in a log line are not modelled.
- Utils.RawItem: a key of an input item that holds JSON `null` is treated as missing. In the source, `item.get` returns `None` for a present `null`. A `null` qid then gives the qid `None` rather than the `id` fallback (`src/utils.py:29`). A `null` question gives `None`. `null` choices raise `TypeError` at `enumerate` (`src/utils.py:35`), where the model transforms the item with no choices. Non-string values in input items are not modelled either.
- `process_all_documents`, the embedder's `main`, the crawlers and `stop.py`: these file drivers and collectors lie outside the modelled core.
