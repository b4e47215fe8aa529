# Translation Telephone, modelled in Dafny

Translation Telephone is a small web game. A player types a phrase. Every
configured AI model translates it through a chain of languages and back into
English. The model whose final English text is literally closest to the
phrase wins.

The project models the three core parts of the system:

- **The batch server action.** `runTelephoneGameWithModels` runs each model
  through the fixed chain French, Spanish, English. Each model's final text is
  scored with `calculateSimilarity`: one minus the Levenshtein distance of the
  lower-cased, trimmed strings over the length of the longer one. The results
  are sorted by score, and the first one is the winner. A failed translation
  records a sentinel step and re-throws, so the whole competition rejects.
- **The streaming server action.** `runTelephoneGameStreaming` translates
  through a chain the caller chooses.
  - It yields the original phrase, then one partial update per chunk streamed.
  - Each step ends with a completion update.
  - A step whose stream fails yields the sentinel as its completion, and the
    chain goes on from the last good text.
  - It finishes with one scored English update.
- **The client page.** The page edits the chain and builds the server chain
  (the chosen languages, then English). It folds each model's stream of
  updates into the displayed per-model state and labels the result rows.
  Finally it picks as winners every model whose score is within 0.0001 of the
  best.

The modules follow the program:

- `Wrappers`: `Option`.
- `Text`: lower-casing and `trim`.
- `Levenshtein`: the edit-distance recurrence, and the in-place single-row
  programme of `getEditDistance` on an `array`, proved to compute it.
- `Scorer`: `calculateSimilarity`.
- `Translation`: the request each step sends, and the failure sentinel.
- `Actions`: `actions.ts`.
- `StreamingActions`: `streaming-actions.ts`.
- `Page`: `page.tsx`.

The translation gateway is a parameter of each runner.

- The batch runner's gateway is a total function from requests (model id,
  target language, prompt) to replies: `Generated(text)` or `Failed`. Within
  one run the three requests name three different languages, so no request
  is ever sent twice.
- The streaming runner's gateway is a total function from calls to replies:
  `Streamed(chunks)`, or `Broken(chunks)` with the chunks that arrived before
  the throw. A call is the index of the step that makes it plus the request.
  So a chain that repeats a language may get a different reply for the same
  request at each step, as a fresh `streamText` call can.

Every property below holds for every such function.

`getEditDistance` and `calculateSimilarity` appear twice with the same text,
in `src/app/actions.ts:45-81` and `src/app/streaming-actions.ts:14-48`. They
are modelled once, in `Levenshtein` and `Scorer`, and both runners use that
model.

The table's rows for the scorer cite the copy in `actions.ts`.

## Model

| member | source | states |
|---|---|---|
| Text.IsWhitespace | src/app/actions.ts:46-47 | definition of the characters `trim()` removes, as far as modelled: ASCII white space, no-break space and the byte-order mark |
| Text.LowerChar | src/app/actions.ts:46-47 | definition of `toLowerCase()` on one character: ASCII capitals map to small letters, everything else is kept |
| Text.ToLower | src/app/actions.ts:46-47 | `toLowerCase()` keeps the length and lower-cases each character (ASCII letters) |
| Text.TrimStart | src/app/actions.ts:46-47 | drops exactly the leading white space; the result is a suffix of the input that starts with a non-space |
| Text.TrimEnd | src/app/actions.ts:46-47 | drops exactly the trailing white space; the result is a prefix of the input that ends with a non-space |
| Text.Trim | src/app/actions.ts:46-47 | `trim()` is empty exactly when the string is all white space; otherwise it starts and ends with a non-space |
| Text.Normalize | src/app/actions.ts:46-47 | definition of the comparison form `s.toLowerCase().trim()`: `Trim` after `ToLower` |
| Translation.Sentinel | src/app/actions.ts:122 | definition of the text recorded for a failed step, `[Error translating to ${lang}]`; the streaming runner yields the same text (`src/app/streaming-actions.ts:104`) |
| Levenshtein.Min | src/app/actions.ts:72 | definition of `Math.min` on two distances |
| Levenshtein.Lev | src/app/actions.ts:62-81 | the specification of `getEditDistance`: the unit-cost recurrence over prefixes; the distance is at least the difference of the lengths |
| Levenshtein.LevSymmetric | src/app/actions.ts:53-58 | the distance is symmetric, so choosing `longer`/`shorter` does not change it |
| Levenshtein.LevMatchingLast | src/app/actions.ts:70-72 | when the last characters agree, the distance is that of the two prefixes (the shortcut the code takes on a match) |
| Levenshtein.LevZeroIffEqual | src/app/actions.ts:49-50 | the distance is 0 exactly between equal strings |
| Levenshtein.LevAtMostLonger | src/app/actions.ts:56-59 | the distance never exceeds the longer length, so the score is never negative |
| Levenshtein.LevPrefixStep | src/app/actions.ts:70-72 | one table cell from its diagonal, left and upper neighbours, on prefixes of the two strings |
| Levenshtein.LevCell | src/app/actions.ts:70-72 | the value `newValue` takes is the table entry of its cell |
| Levenshtein.LevEmptyPrefix | src/app/actions.ts:65-68 | the first row is `0..n` and the first column starts every row at `i` (`lastValue = i`) |
| Levenshtein.StoreCell | src/app/actions.ts:74 | writing `costs[j - 1] := lastValue` moves the boundary between the new row and the old one by one place |
| Levenshtein.FillRow | src/app/actions.ts:65-78 | one pass of the outer loop turns row `i - 1` of the table, held in `costs`, into row `i` in place |
| Levenshtein.EditDistance | src/app/actions.ts:62-81 | `getEditDistance(s1, s2)` returns the Levenshtein distance of `s1` and `s2` |
| Scorer.NormalizedScore | src/app/actions.ts:49-59 | the comparison of normalised strings lies in [0, 1] |
| Scorer.Similarity | src/app/actions.ts:45-60 | the score of two phrases: `NormalizedScore` of their lower-cased, trimmed forms; it is 1 when those forms agree |
| Scorer.CalculateSimilarity | src/app/actions.ts:45-60 | `calculateSimilarity` lies in [0, 1] and is the score defined through the distance specification |
| Scorer.SimilarityInUnitInterval | src/app/actions.ts:45-60 | every pair of phrases scores in [0, 1] |
| Scorer.NormalizedScoreOneIffEqual | src/app/actions.ts:49-59 | normalised strings score 1 exactly when they are equal (both directions) |
| Scorer.NormalizedScoreByDistance | src/app/actions.ts:53-59 | for a non-empty pair, the score is `1 - Lev / max length`, whichever string is longer |
| Scorer.NormalizedScoreSymmetric | src/app/actions.ts:53-54 | the comparison is symmetric |
| Scorer.SimilarityOneIffNormalizedEqual | src/app/actions.ts:45-50 | two phrases score 1 exactly when they agree after lower-casing and trimming |
| Scorer.SimilarityByDistance | src/app/actions.ts:45-59 | with a non-empty normalised phrase, the score is one minus the distance over the larger length |
| Scorer.SimilaritySymmetric | src/app/actions.ts:45-59 | `calculateSimilarity(a, b) == calculateSimilarity(b, a)` |
| Actions.RunFrom | src/app/actions.ts:104-127 | definition of the rest of the `for` loop: each entry calls the gateway with the current text, pushes the step and advances `currentText` on success, and pushes the sentinel and throws on failure |
| Actions.RunLoop | src/app/actions.ts:89-127 | definition of the loop started from `currentText = initialPhrase` with the original step pushed, over the fixed chain French, Spanish, English |
| Actions.RunForModel | src/app/actions.ts:84-137 | the outcome of one model's run: a result carrying the model's name and the score of its final text against the phrase, in [0, 1], or the re-thrown error |
| Actions.RunTelephoneGameForModel | src/app/actions.ts:84-137 | the loop that pushes steps and advances `currentText` settles as the run it specifies: a scored result, or the re-thrown error |
| Actions.RunFromCompleted | src/app/actions.ts:104-117 | a loop that completes appends one step per chain entry, in order, each one the model's reply to the previous step's text; the final text is the last step's |
| Actions.RunFromAborted | src/app/actions.ts:104-126 | a loop that throws does so at some entry `k`: every earlier call succeeded, call `k` failed, and the sentinel for that language was pushed last |
| Actions.FinishedRunShape | src/app/actions.ts:89-136 | a finished run has four steps (Original, French, Spanish, English), each translating the one before; its final text is the English one, with its score in [0, 1] |
| Actions.ThrewRunShape | src/app/actions.ts:98-126 | a run that throws failed on French, Spanish or English; its steps begin with the original phrase and end with that language's sentinel |
| Actions.Runs | src/app/actions.ts:30-34 | one outcome per model, the `i`-th being the run of the `i`-th model |
| Actions.PromiseAll | src/app/actions.ts:30-34 | `Promise.all` over the runners in list order: one result per runner when all finish, otherwise the error of a runner that threw |
| Actions.PromiseAllFulfilled | src/app/actions.ts:30-34 | when every runner finishes, `Promise.all` yields their results in model order |
| Actions.PromiseAllRejected | src/app/actions.ts:30-34 | when runner `i` throws and all before it finish, the competition rejects with runner `i`'s error |
| Actions.RunAll | src/app/actions.ts:30-34 | running the models one after the other settles as `Promise.all` over their runs |
| Actions.SortBySimilarity | src/app/actions.ts:37 | `results.sort(...)` by descending similarity; the result is a permutation of the input |
| Actions.InsertBySimilarity | src/app/actions.ts:37 | definition of one insertion step of the sort: the result goes after every entry whose similarity is at least its own, so `b.similarity - a.similarity` never puts a lower score first |
| Actions.InsertPermutes | src/app/actions.ts:37 | an insertion adds exactly the inserted result |
| Actions.InsertKeepsOrder | src/app/actions.ts:37 | inserting into a list sorted by descending similarity keeps it sorted |
| Actions.SortOrders | src/app/actions.ts:37 | sorting leaves the similarities non-increasing |
| Actions.SortIsOrderedPermutation | src/app/actions.ts:36-37 | the sorted results are a non-increasing permutation |
| Actions.Rank | src/app/actions.ts:36-43 | the game object keeps the phrase and one entry per result; `winner` is present exactly when there is a result, and is then the first ranked entry, `results[0]` |
| Actions.RankOrdersAndPicksMaximum | src/app/actions.ts:36-43 | the game keeps the phrase and ranks the results; there is a winner exactly when there is a result; the winner is the first ranked entry and a result with the highest similarity |
| Actions.RunTelephoneGameWithModels | src/app/actions.ts:26-44 | the competition resolves to the ranked results of all the configured models, or rejects with the first error |
| StreamingActions.Concat | src/app/streaming-actions.ts:68-77 | definition of `fullText` after `fullText += chunk` for each chunk, starting from `''` |
| StreamingActions.Partials | src/app/streaming-actions.ts:76-85 | definition of the partial yields of one step: one per chunk, incomplete, carrying the text so far |
| StreamingActions.Completion | src/app/streaming-actions.ts:89-106 | definition of a step's completion yield: complete, with the whole text, or with the sentinel when the stream threw |
| StreamingActions.StepUpdates | src/app/streaming-actions.ts:76-106 | definition of everything one step yields: its partials, then its completion |
| StreamingActions.NextText | src/app/streaming-actions.ts:87-108 | definition of `currentText` after a step: the streamed text on success (line 87), unchanged when the step threw |
| StreamingActions.ReplyAt | src/app/streaming-actions.ts:70-74 | definition of what step `k`'s `streamText` call gets: the gateway's reply to that step, prompted with the text the earlier steps left |
| StreamingActions.TextAfter | src/app/streaming-actions.ts:56-109 | definition of `currentText` after the steps of a chain: a step's streamed text on success, unchanged on failure |
| StreamingActions.ChainUpdates | src/app/streaming-actions.ts:66-109 | everything the chain's steps yield, in order; at least one update per step |
| StreamingActions.FinalUpdate | src/app/streaming-actions.ts:111-120 | definition of the last yield: language "English", the current text, complete, with its similarity to the phrase |
| StreamingActions.StreamingUpdates | src/app/streaming-actions.ts:50-121 | everything the generator yields: at least `\|chain\| + 2` updates, the first being the unscored original phrase |
| StreamingActions.StreamChunks | src/app/streaming-actions.ts:68-85 | `fullText` is the concatenation of the chunks, with one partial update per chunk carrying the text so far |
| StreamingActions.ChainStep | src/app/streaming-actions.ts:66-109 | one more step appends that step's updates and hands on its text |
| StreamingActions.RunStep | src/app/streaming-actions.ts:67-108 | a step yields its partials, then its completion: the text, or the sentinel with `currentText` left as it was when the stream throws |
| StreamingActions.RunTelephoneGameStreaming | src/app/streaming-actions.ts:50-121 | the generator yields the original update, each step's updates in chain order, then the scored final update |
| StreamingActions.ConcatPrefix | src/app/streaming-actions.ts:76-77 | the text after `i` chunks is a prefix of the text after all of them |
| StreamingActions.PartialsAt | src/app/streaming-actions.ts:76-85 | partial `i` is incomplete, unscored, and carries the first `i + 1` chunks |
| StreamingActions.StepUpdatesShape | src/app/streaming-actions.ts:76-106 | one step yields one update per chunk and then exactly one completion (the text or the sentinel); nothing in it is scored |
| StreamingActions.PartialsGrow | src/app/streaming-actions.ts:76-85 | partial texts only grow, and each is a prefix of the step's text |
| StreamingActions.CompletionRepeatsLastPartial | src/app/streaming-actions.ts:79-95 | after at least one chunk, the completion repeats the last partial's text |
| StreamingActions.CompletionsAppend | src/app/streaming-actions.ts:63-120 | the completion updates of two lists in a row are those of each, in order |
| StreamingActions.CompletionsOfStep | src/app/streaming-actions.ts:76-106 | a step contributes exactly its own completion |
| StreamingActions.ReplyAtPrefix | src/app/streaming-actions.ts:70-74 | what a step receives does not depend on the steps after it |
| StreamingActions.ChainCompletionList | src/app/streaming-actions.ts:66-109 | the completions of the chain are one per step, in order |
| StreamingActions.StepCompletions | src/app/streaming-actions.ts:66-109 | one completion per step; the `k`-th carries step `k`'s language and the reply to the call step `k` makes (its streamed text, or the sentinel) |
| StreamingActions.ChainCompletions | src/app/streaming-actions.ts:66-109 | every step yields exactly one completion, failed or not; completion `k` has the chain's `k`-th language and what step `k` streamed, or the sentinel |
| StreamingActions.ChainUpdatesUnscored | src/app/streaming-actions.ts:66-109 | no update of the chain is scored, and each names the runner's model |
| StreamingActions.StreamingShape | src/app/streaming-actions.ts:56-121 | the first update is the unscored original phrase; the last is English, with the final text and its score in [0, 1]; only the last is scored |
| StreamingActions.StreamingCompletions | src/app/streaming-actions.ts:56-121 | the generator yields `\|chain\| + 1` completions: one per step in chain order, then the final update |
| StreamingActions.TextAfterLastSuccess | src/app/streaming-actions.ts:87-112 | the scored text is that of the last step that streamed successfully, or the original phrase when none did |
| StreamingActions.AllStepsFailedScoresOne | src/app/streaming-actions.ts:96-112 | when every step fails, or the chain is empty, the final text is the phrase itself and scores 1 |
| Page.AddLanguage | src/app/page.tsx:39-41 | `addLanguage` appends the language and keeps the chain before it |
| Page.RemoveLanguage | src/app/page.tsx:43-45 | `chain.filter((_, i) => i !== index)`: one entry shorter for an index in range, the same length otherwise |
| Page.RemoveLanguageDeletes | src/app/page.tsx:43-45 | an index in range loses exactly that entry, the order of the rest kept; any other index changes nothing |
| Page.RemoveUndoesAdd | src/app/page.tsx:39-45 | removing the language just added gives the chain back |
| Page.ServerChain | src/app/page.tsx:66 | `serverChain` is the chosen languages in order, then English |
| Page.RowLabel | src/app/page.tsx:236-245 | definition of one row's label: "Original" for row 0, "English (Final)" for row `chain.length + 1`, otherwise `chain[stepIndex - 1]` |
| Page.RowLabels | src/app/page.tsx:235-245 | one label per grid row: `chain.length + 2` of them |
| Page.RowLabelsShape | src/app/page.tsx:235-245 | `chain.length + 2` rows: Original, the chain's languages (the server steps' languages), then "English (Final)" for the English step |
| Page.StartState | src/app/page.tsx:56-60 | definition of one entry of `initialStates`: the model's name, the input in row 0, processing, no similarity |
| Page.InitialStates | src/app/page.tsx:53-61 | `initialStates`: every configured model has an entry |
| Page.InitialStatesShape | src/app/page.tsx:53-61 | there is an entry for every model and for no other name, each a fresh state: the input in row 0, processing |
| Page.PreviousSteps | src/app/page.tsx:87 | definition of `prev[update.modelName]?.steps`: the entry's steps, or nothing when the model has no entry |
| Page.MergeUnder | src/app/page.tsx:82-93 | definition of the spread merge under a given key: the model's entry is replaced by one with the old steps plus the update's text under that key, `!isComplete` and the update's similarity |
| Page.MergeAsWritten | src/app/page.tsx:82-93 | the merge as written: the model's entry gains exactly the key `undefined`, because `StreamUpdate` has no `stepIndex` |
| Page.MergeUpdate | src/app/page.tsx:82-93 | the merge with the update's row passed explicitly, as the page evidently intends: the model's entry holds the update's text in that row |
| Page.MergeAll | src/app/page.tsx:81-93 | definition of the `for await` loop's state updates: every update merged in order, each under its row |
| Page.MergeAllAsWritten | src/app/page.tsx:81-93 | definition of the same loop as written, every update under the key `undefined` |
| Page.MergeUpdateFrame | src/app/page.tsx:82-93 | one update changes only its model's entry and, in it, only its row; `isProcessing` becomes `!isComplete` and the similarity is replaced, even by `undefined` |
| Page.MergeCommutes | src/app/page.tsx:70-93 | two adjacent updates of different models may be swapped without changing the state |
| Page.MergeAllEntry | src/app/page.tsx:82-93 | after any list of merges, a model's entry depends only on that model's own updates and their rows, in their order |
| Page.SameOwnSameMerge | src/app/page.tsx:70-93 | two lists of merges that give every model the same own updates, in the same order, give the same state |
| Page.MergeAllAppend | src/app/page.tsx:81-93 | merging two lists one after the other is merging their concatenation |
| Page.PlayedIsFlatMerge | src/app/page.tsx:70-101 | merging the streams one after the other is one list of merges: the streams concatenated |
| Page.FlatOwn | src/app/page.tsx:70-101 | with distinct model names, model `k`'s own updates in the concatenated streams are exactly its stream, each in its row |
| Page.InterleavedStreams | src/app/page.tsx:70-101 | any interleaving of the parallel streams that keeps each model's updates in their own order, with their rows, gives the same state as merging the streams one after the other |
| Page.AsWrittenRowsStayEmpty | src/app/page.tsx:86-89 | as written, only row 0 ever holds text: every update lands under the key `undefined` |
| Page.AsWrittenLosesFrenchRow | src/app/page.tsx:86-89 | concretely: after the first French chunk, the French row is still empty, and "Bonjour" sits under `undefined` |
| Page.RowsFrom | src/app/page.tsx:88 | the intended row of every update, one per update |
| Page.RowsAppend | src/app/page.tsx:88 | the rows of two lists in a row: the second continues after the first list's completions |
| Page.RowsOfStep | src/app/page.tsx:88 | all updates of one step share a row |
| Page.ChainRows | src/app/page.tsx:88 | the updates of step `k` all land in row `k + 1` and carry that entry's language |
| Page.UpdatesLandInTheirRows | src/app/page.tsx:88 | with those rows, every streamed update lands in the grid row labelled with its language; the original is in row 0 and the English ones in "English (Final)" |
| Page.LastSimilarity | src/app/page.tsx:79-96 | `finalSimilarity` after a list of updates: the start value or one of the updates' similarities |
| Page.LastSimilarityNone | src/app/page.tsx:79-96 | with no scored update, `finalSimilarity` stays at its start value |
| Page.LastSimilarityIsLastDefined | src/app/page.tsx:79-96 | otherwise it is the similarity of the last update that has one |
| Page.ConsumeStream | src/app/page.tsx:79-97 | the `for await` loop merges every update in order and keeps the last similarity seen, from 0 |
| Page.ConsumedSimilarity | src/app/page.tsx:79-99 | consuming a whole run leaves its final text's score against the input, in [0, 1] |
| Page.Best | src/app/page.tsx:104-109 | `maxSimilarity` after the scan: at least -1 and at least every result's similarity |
| Page.BestIsMaximum | src/app/page.tsx:104-109 | the max scan is -1 for no results; otherwise no result is above it, and it is attained unless all scores are below -1 |
| Page.BestAttained | src/app/page.tsx:104-109 | with scores of at least -1, the maximum is some result's score |
| Page.MaxSimilarity | src/app/page.tsx:104-109 | the scan loop computes that maximum |
| Page.Abs | src/app/page.tsx:111 | definition of `Math.abs` on a similarity difference |
| Page.Close | src/app/page.tsx:111 | definition of the filter's test `Math.abs(r.similarity - maxSimilarity) < 0.0001` |
| Page.WinningModels | src/app/page.tsx:111 | the filter keeps only results within 0.0001 of the maximum, and never more results than there are |
| Page.WinningModelsCount | src/app/page.tsx:111 | a result is among the winners as often as in the results when it is close to the maximum, otherwise never |
| Page.WinningModelsMembers | src/app/page.tsx:111 | the winners are exactly the results within 0.0001 of the maximum (both directions) |
| Page.WinningModelsInOrder | src/app/page.tsx:111 | the winners keep the results' order |
| Page.WinnersNonEmpty | src/app/page.tsx:104-111 | there is a winner whenever there is a result |
| Page.ExcludedBelowBest | src/app/page.tsx:104-111 | every result left out is at least 0.0001 below the maximum |
| Page.SelectWinners | src/app/page.tsx:103-112 | the winner selection is the filter against the scanned maximum |
| Page.ShouldStart | src/app/page.tsx:48 | the guard `input.trim()` is truthy: a game can start only for a non-empty input |
| Page.ShouldStartIffVisible | src/app/page.tsx:48 | a game starts exactly when the input has a non-space character |
| Page.RunRows | src/app/page.tsx:88 | one row per update of a run |
| Page.RunUpdates | src/app/page.tsx:72-77 | definition of the stream one model consumes: `runTelephoneGameStreaming` on the input, the model and the server chain |
| Page.Streams | src/app/page.tsx:70-77 | one stream per configured model |
| Page.StreamsAt | src/app/page.tsx:70-77 | the `k`-th stream is model `k`'s run on the server chain |
| Page.PlayedStates | src/app/page.tsx:70-101 | definition of the shown state once every model's stream has been merged, one stream after the other |
| Page.Candidates | src/app/page.tsx:99 | one candidate per model |
| Page.CandidateAt | src/app/page.tsx:99 | model `k`'s candidate is its name and the last similarity of its own stream |
| Page.PlayModel | src/app/page.tsx:71-100 | one model's run is merged into the state and resolves to its name and last similarity |
| Page.PlayNext | src/app/page.tsx:70-101 | one more turn of the per-model work: after it, the state and the candidates are those of the first `i + 1` streams |
| Page.Advance | src/app/page.tsx:70-101 | one more model: merged after the others, its candidate appended |
| Page.Finished | src/app/page.tsx:70-101 | after every model, the state and the candidates are those of all the streams |
| Page.PlayAll | src/app/page.tsx:70-101 | the models' runs, merged in order, give the played state and one candidate per model |
| Page.HandleStart | src/app/page.tsx:47-120 | a blank input starts nothing; otherwise the state is every configured model's stream merged into the initial states, and the winners are the close-to-best candidates, never none; merged under the intended rows recorded under "## Findings", every model's entry ends showing its finished run and score |
| Page.RunSimilarity | src/app/page.tsx:94-99 | a run resolves to its final text's score against the input, in [0, 1] |
| Page.CandidatesScored | src/app/page.tsx:70-101 | every candidate names its model and carries the score of that model's final text, in [0, 1] |
| Page.GameHasWinners | src/app/page.tsx:103-112 | with at least one model there is a winner; winners are close to the best score, which no model exceeds, and every other model is at least 0.0001 below it |
| Page.MergeAllLast | src/app/page.tsx:82-93 | after a list of merges, the last update's model shows that update's text, processing flag and similarity |
| Page.RunFinishes | src/app/page.tsx:81-97 | once a model's stream is consumed, its entry is not processing and shows the final score; with the intended rows recorded under "## Findings", "English (Final)" holds the final text |
| Page.MergeAllOthers | src/app/page.tsx:82-93 | merging another model's updates leaves an entry as it was, present or absent |
| Page.StreamsNamed | src/app/page.tsx:72-77 | every update of model `j`'s stream names model `j` |
| Page.PlayedKeeps | src/app/page.tsx:70-101 | the streams after model `k`'s leave model `k`'s entry as that stream left it |
| Page.FinishStays | src/app/page.tsx:70-101 | a finished entry stays finished once all the streams are merged |
| Page.PlayedShowsEveryFinish | src/app/page.tsx:70-101 | with distinct model names, model `k`'s entry in the played state shows its own run finished: not processing, its score, and, with the intended rows recorded under "## Findings", its final text in "English (Final)" |
| Page.PlayedShowsAll | src/app/page.tsx:70-101 | the same for every model at once, with the intended rows recorded under "## Findings" |
| Page.CompetingModelsDistinct | src/config/models.ts:5-18 | the configured models have distinct names, so each has its own entry |

## Left out

- The AI gateway (`generateText`, `streamText`, `gateway(modelId)`) is a network call. It is a parameter, as described above. The system instruction depends only on the target language, so the request carries the language instead of the instruction text.
- `Promise.all` runs the models concurrently. The model runs them one after the other. In the batch action they share no state, and a rejection is modelled as the first failing model in list order. In the page, `Page.InterleavedStreams` shows that any interleaving that keeps each model's own order gives the same state as the sequential one. Timing, and the states shown while the streams are still running, are not modelled.
- The async generator is lazy and is consumed as it yields. The model collects everything it yields into one list, so the order of updates is kept but their timing is not.
- `console.error`, `alert`, the `catch` and `finally` blocks of `handleStart`, `isGameRunning`, `setWinners([])` and all React rendering are left out. The only rendering modelled is the row labels. A cell shows `steps[stepIndex]`, or the placeholder '...' or '-' when that text is missing or empty (a step that streamed no chunks leaves ""). The model states which text each `Row` key holds, not what the cell renders.
- `Page.HandleStart`: the winners are computed from the models' results, so the path where a server stream throws to the page is not modelled. The streaming action catches every step failure itself.
- `Page.HandleStart`: it merges each update under the row that `Page.RunRows` (through `Page.RowsFrom`) assigns, not under the key `undefined` that `page.tsx:88` writes. The as-written behaviour is modelled separately by `Page.MergeAsWritten`, as "## Findings" records. The same holds for `Page.RunFinishes`, `Page.PlayedShowsEveryFinish` and `Page.PlayedShowsAll`.
- `toLowerCase` is modelled on ASCII letters only. `trim` is modelled on ASCII white space plus no-break space and the byte-order mark. Strings are sequences of characters, not UTF-16 code units.
- JavaScript numbers are modelled as exact reals. Rounding of `1 - d / n` is not modelled; nor are `toFixed` and the percentage display.
- `Actions.SortBySimilarity`: `Array.prototype.sort` sorts in place. The model sorts a sequence by insertion and proves the result ordered and a permutation. The order among equal similarities is not stated.
- `Actions.RunTelephoneGameForModel`: the source re-throws the gateway's own error object, which is not modelled. `Actions.RunError` is a stand-in whose three fields are all synthetic: the language whose call failed, the model, and the steps list as it stood at the throw. They are there only to make the failure and the pushed sentinel visible. The source discards the steps list and never records the language or the model in the error.
- The configuration tables are constants. `src/config/models.ts` gives `Actions.CompetingModels`, the list both `actions.ts` and `page.tsx` import. The chain hard-coded at `src/app/actions.ts:92-96` gives `Actions.BatchChain`. The page's starting chain `['French', 'Spanish']` (`src/app/page.tsx:37`) is not modelled: every property holds for every chain. `AVAILABLE_LANGUAGES` only fills a drop-down and is not modelled. `src/app/config.ts` is not part of this model.

## Findings

| source | as written | input that shows it | evidently intended | confidence | as-written member | corrected member |
|---|---|---|---|---|---|---|
| src/app/page.tsx:88 | the merge writes under `update.stepIndex`, which `StreamUpdate` does not have, so every update goes to the key `undefined` and no grid row past row 0 is ever filled | the first French chunk "Bonjour" for "Hello": the French row stays empty | every update goes to the row of its step: row 0 for the original, row `k + 1` for step `k`, and the last row for the English step and the final update | not executed | Page.AsWrittenLosesFrenchRow | Page.UpdatesLandInTheirRows |
