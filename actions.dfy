/**
 * The batch server action (`actions.ts`): one model translates the phrase
 * through the fixed chain French, Spanish, English, and the competition runs
 * every configured model and ranks the results by similarity. A failed
 * translation is recorded and then re-thrown, so the whole competition rejects.
 */
module Actions {
  import opened Wrappers
  import opened Translation
  import opened Scorer

  datatype TelephoneStep = TelephoneStep(language: string, text: string, model: string)

  datatype ModelResult = ModelResult(modelName: string, steps: seq<TelephoneStep>, finalText: string, similarity: real)

  /** `winner` is `results[0]`, which is `undefined` when there are no results. */
  datatype GameResult = GameResult(originalPhrase: string, results: seq<ModelResult>, winner: Option<ModelResult>)

  /** What `generateText` gives back: the translated text, or a thrown error. */
  datatype Reply = Generated(text: string) | Failed

  /**
   * A stand-in for the error a runner re-throws (the gateway's own error
   * object, which is not modelled): the language whose call failed, the model,
   * and the steps list as it stood when it was thrown, ending with the
   * sentinel, recorded so that the failure can be stated.
   */
  datatype RunError = TranslationFailed(language: string, model: string, stepsAtFailure: seq<TelephoneStep>)

  /** The run loop's own outcome: the steps and the final text, or the error it re-threw. */
  datatype Trace = Completed(steps: seq<TelephoneStep>, finalText: string) | Aborted(error: RunError)

  /** How one runner settles: a result, or the error it re-threw. */
  datatype RunOutcome = Finished(result: ModelResult) | Threw(error: RunError)

  /** How `Promise.all` over the runners settles. */
  datatype Settled = AllFulfilled(results: seq<ModelResult>) | Rejected(error: RunError)

  datatype ModelInfo = ModelInfo(name: string, modelId: string)

  /** The chain hard-coded in `runTelephoneGameForModel`. */
  const BatchChain: seq<ChainEntry> := [ChainEntry("French"), ChainEntry("Spanish"), ChainEntry("English")]

  /** `COMPETING_MODELS` of `src/config/models.ts`, the table `actions.ts` imports. */
  const CompetingModels: seq<ModelInfo> := [
    ModelInfo("Gemini 2.5 Flash Lite", "google/gemini-2.5-flash-lite"),
    ModelInfo("Llama 3.3 70B", "groq/llama-3.3-70b-versatile")
  ]

  // ---------------------------------------------------------------------------
  // One model's run
  // ---------------------------------------------------------------------------

  /**
   * The rest of the loop of a run: `chain` is still to be translated,
   * `currentText` is the text of the last step and `steps` the list so far.
   */
  function RunFrom(modelName: string, modelId: string, generate: Request -> Reply,
                   chain: seq<ChainEntry>, currentText: string, steps: seq<TelephoneStep>): Trace
    decreases |chain|
  {
    if |chain| == 0 then Completed(steps, currentText)
    else
      var lang := chain[0].lang;
      match generate(Request(modelId, lang, currentText))
      case Generated(text) =>
        RunFrom(modelName, modelId, generate, chain[1..], text, steps + [TelephoneStep(lang, text, modelName)])
      case Failed =>
        Aborted(TranslationFailed(lang, modelName, steps + [TelephoneStep(lang, Sentinel(lang), modelName)]))
  }

  /** The loop of `runTelephoneGameForModel`, started from the original phrase. */
  function RunLoop(initialPhrase: string, modelName: string, modelId: string, generate: Request -> Reply): Trace
  {
    RunFrom(modelName, modelId, generate, BatchChain, initialPhrase, [TelephoneStep("Original", initialPhrase, modelName)])
  }

  /** The outcome of `runTelephoneGameForModel(initialPhrase, modelName, modelId)`. */
  function RunForModel(initialPhrase: string, modelName: string, modelId: string, generate: Request -> Reply): (o: RunOutcome)
    ensures o.Finished? ==> && o.result.modelName == modelName
                            && o.result.similarity == Similarity(initialPhrase, o.result.finalText)
                            && 0.0 <= o.result.similarity <= 1.0
  {
    match RunLoop(initialPhrase, modelName, modelId, generate)
    case Completed(steps, finalText) =>
      SimilarityInUnitInterval(initialPhrase, finalText);
      Finished(ModelResult(modelName, steps, finalText, Similarity(initialPhrase, finalText)))
    case Aborted(e) => Threw(e)
  }

  /** `runTelephoneGameForModel`: the loop that pushes onto `steps` and advances `currentText`. */
  method RunTelephoneGameForModel(initialPhrase: string, modelName: string, modelId: string, generate: Request -> Reply)
    returns (outcome: RunOutcome)
    ensures outcome == RunForModel(initialPhrase, modelName, modelId, generate)
  {
    var steps: seq<TelephoneStep> := [];
    var currentText := initialPhrase;
    var chain := BatchChain;
    steps := steps + [TelephoneStep("Original", currentText, modelName)];
    for k := 0 to |chain|
      invariant RunLoop(initialPhrase, modelName, modelId, generate)
                == RunFrom(modelName, modelId, generate, chain[k..], currentText, steps)
    {
      var step := chain[k];
      assert chain[k..][1..] == chain[k + 1..];
      var reply := generate(Request(modelId, step.lang, currentText));
      match reply
      case Generated(text) =>
        currentText := text;
        steps := steps + [TelephoneStep(step.lang, currentText, modelName)];
      case Failed =>
        steps := steps + [TelephoneStep(step.lang, Sentinel(step.lang), modelName)];
        return Threw(TranslationFailed(step.lang, modelName, steps));
    }
    var similarity := CalculateSimilarity(initialPhrase, currentText);
    outcome := Finished(ModelResult(modelName, steps, currentText, similarity));
  }

  /**
   * A loop that completes appends one step per chain entry, in chain order;
   * each step's text is what the model returned when prompted with the text of
   * the step before it, and the final text is the last step's.
   */
  lemma {:induction false} RunFromCompleted(modelName: string, modelId: string, generate: Request -> Reply,
                                            chain: seq<ChainEntry>, currentText: string, steps: seq<TelephoneStep>)
    requires |steps| > 0 && steps[|steps| - 1].text == currentText
    requires RunFrom(modelName, modelId, generate, chain, currentText, steps).Completed?
    ensures var t := RunFrom(modelName, modelId, generate, chain, currentText, steps);
      && |t.steps| == |steps| + |chain|
      && t.steps[..|steps|] == steps
      && (forall k :: 0 <= k < |chain| ==>
            t.steps[|steps| + k].language == chain[k].lang && t.steps[|steps| + k].model == modelName)
      && (forall k :: 0 <= k < |chain| ==>
            generate(Request(modelId, chain[k].lang, t.steps[|steps| + k - 1].text))
            == Generated(t.steps[|steps| + k].text))
      && t.finalText == t.steps[|t.steps| - 1].text
    decreases |chain|
  {
    if |chain| > 0 {
      var lang := chain[0].lang;
      var text := generate(Request(modelId, lang, currentText)).text;
      var steps' := steps + [TelephoneStep(lang, text, modelName)];
      RunFromCompleted(modelName, modelId, generate, chain[1..], text, steps');
      var t := RunFrom(modelName, modelId, generate, chain, currentText, steps);
      assert t.steps[..|steps'|] == steps';
      assert t.steps[..|steps|] == steps'[..|steps|];
      forall k | 0 <= k < |chain|
        ensures t.steps[|steps| + k].language == chain[k].lang && t.steps[|steps| + k].model == modelName
        ensures generate(Request(modelId, chain[k].lang, t.steps[|steps| + k - 1].text))
                == Generated(t.steps[|steps| + k].text)
      {
        if k > 0 {
          assert chain[k] == chain[1..][k - 1];
          assert |steps| + k == |steps'| + (k - 1);
        } else {
          assert t.steps[|steps|] == steps'[|steps|];
          assert t.steps[|steps| - 1] == steps'[|steps| - 1];
        }
      }
    }
  }

  /**
   * A loop that throws does so at some chain entry `k`: every earlier step
   * succeeded as above, the call for entry `k` failed, and the last step
   * pushed before the throw is the sentinel for that language.
   */
  lemma {:induction false} RunFromAborted(modelName: string, modelId: string, generate: Request -> Reply,
                                          chain: seq<ChainEntry>, currentText: string, steps: seq<TelephoneStep>)
    requires |steps| > 0 && steps[|steps| - 1].text == currentText
    requires RunFrom(modelName, modelId, generate, chain, currentText, steps).Aborted?
    ensures var e := RunFrom(modelName, modelId, generate, chain, currentText, steps).error;
      var k := |e.stepsAtFailure| - |steps| - 1;
      && 0 <= k < |chain|
      && e.language == chain[k].lang && e.model == modelName
      && e.stepsAtFailure[..|steps|] == steps
      && (forall m :: 0 <= m < k ==>
            e.stepsAtFailure[|steps| + m].language == chain[m].lang
            && generate(Request(modelId, chain[m].lang, e.stepsAtFailure[|steps| + m - 1].text))
               == Generated(e.stepsAtFailure[|steps| + m].text))
      && generate(Request(modelId, chain[k].lang, e.stepsAtFailure[|steps| + k - 1].text)) == Failed
      && e.stepsAtFailure[|steps| + k] == TelephoneStep(chain[k].lang, Sentinel(chain[k].lang), modelName)
    decreases |chain|
  {
    var lang := chain[0].lang;
    var reply := generate(Request(modelId, lang, currentText));
    if reply.Generated? {
      var steps' := steps + [TelephoneStep(lang, reply.text, modelName)];
      RunFromAborted(modelName, modelId, generate, chain[1..], reply.text, steps');
      var e := RunFrom(modelName, modelId, generate, chain, currentText, steps).error;
      var k := |e.stepsAtFailure| - |steps| - 1;
      assert e.stepsAtFailure[..|steps'|] == steps';
      assert e.stepsAtFailure[..|steps|] == steps'[..|steps|];
      assert chain[k] == chain[1..][k - 1];
      forall m | 0 <= m < k
        ensures e.stepsAtFailure[|steps| + m].language == chain[m].lang
        ensures generate(Request(modelId, chain[m].lang, e.stepsAtFailure[|steps| + m - 1].text))
                == Generated(e.stepsAtFailure[|steps| + m].text)
      {
        if m > 0 {
          assert chain[m] == chain[1..][m - 1];
          assert |steps| + m == |steps'| + (m - 1);
        } else {
          assert e.stepsAtFailure[|steps|] == steps'[|steps|];
          assert e.stepsAtFailure[|steps| - 1] == steps'[|steps| - 1];
        }
      }
    }
  }

  /**
   * A successful `runTelephoneGameForModel` has four steps: the original
   * phrase, then French, Spanish and English, each translating the text of the
   * one before; its final text is the English step's and its score, of that
   * text against the original phrase, lies in [0, 1].
   */
  lemma FinishedRunShape(initialPhrase: string, modelName: string, modelId: string, generate: Request -> Reply)
    requires RunForModel(initialPhrase, modelName, modelId, generate).Finished?
    ensures var r := RunForModel(initialPhrase, modelName, modelId, generate).result;
      && r.modelName == modelName
      && |r.steps| == 4
      && r.steps[0] == TelephoneStep("Original", initialPhrase, modelName)
      && r.steps[1].language == "French" && r.steps[2].language == "Spanish" && r.steps[3].language == "English"
      && (forall k :: 1 <= k < 4 ==>
            r.steps[k].model == modelName
            && generate(Request(modelId, r.steps[k].language, r.steps[k - 1].text)) == Generated(r.steps[k].text))
      && r.finalText == r.steps[3].text
      && r.similarity == Similarity(initialPhrase, r.finalText)
      && 0.0 <= r.similarity <= 1.0
  {
    var first := [TelephoneStep("Original", initialPhrase, modelName)];
    RunFromCompleted(modelName, modelId, generate, BatchChain, initialPhrase, first);
    var t := RunLoop(initialPhrase, modelName, modelId, generate);
    assert t.steps[0] == t.steps[..1][0];
    forall k | 1 <= k < 4
      ensures t.steps[k].model == modelName
      ensures generate(Request(modelId, t.steps[k].language, t.steps[k - 1].text)) == Generated(t.steps[k].text)
    {
      assert t.steps[1 + (k - 1)].language == BatchChain[k - 1].lang;
    }
    SimilarityInUnitInterval(initialPhrase, t.finalText);
  }

  /**
   * A `runTelephoneGameForModel` that throws has pushed the original step,
   * the successful steps before the failure and the sentinel for the failed
   * language, which is one of French, Spanish and English, whose call failed.
   */
  lemma ThrewRunShape(initialPhrase: string, modelName: string, modelId: string, generate: Request -> Reply)
    requires RunForModel(initialPhrase, modelName, modelId, generate).Threw?
    ensures var e := RunForModel(initialPhrase, modelName, modelId, generate).error;
      && e.language in ["French", "Spanish", "English"]
      && 2 <= |e.stepsAtFailure| <= 4
      && e.stepsAtFailure[0] == TelephoneStep("Original", initialPhrase, modelName)
      && e.stepsAtFailure[|e.stepsAtFailure| - 1] == TelephoneStep(e.language, Sentinel(e.language), modelName)
      && generate(Request(modelId, e.language, e.stepsAtFailure[|e.stepsAtFailure| - 2].text)) == Failed
  {
    var first := [TelephoneStep("Original", initialPhrase, modelName)];
    RunFromAborted(modelName, modelId, generate, BatchChain, initialPhrase, first);
    var e := RunLoop(initialPhrase, modelName, modelId, generate).error;
    assert e.stepsAtFailure[0] == e.stepsAtFailure[..1][0];
  }

  // ---------------------------------------------------------------------------
  // The competition
  // ---------------------------------------------------------------------------

  /** The runners' outcomes, one per model: they share no state, so running them together is a map. */
  function Runs(initialPhrase: string, models: seq<ModelInfo>, generate: Request -> Reply): (runs: seq<RunOutcome>)
    ensures |runs| == |models|
    ensures forall i :: 0 <= i < |models| ==>
      runs[i] == RunForModel(initialPhrase, models[i].name, models[i].modelId, generate)
  {
    seq(|models|, i requires 0 <= i < |models| => RunForModel(initialPhrase, models[i].name, models[i].modelId, generate))
  }

  /**
   * `Promise.all` over the runners' outcomes, taken in list order: every result
   * when all of them finish, otherwise the error of the first one that threw.
   */
  function PromiseAll(runs: seq<RunOutcome>): (s: Settled)
    ensures s.AllFulfilled? ==> |s.results| == |runs|
    ensures s.Rejected? ==> Threw(s.error) in runs
    decreases |runs|
  {
    if |runs| == 0 then AllFulfilled([])
    else
      match runs[0]
      case Threw(e) => Rejected(e)
      case Finished(r) =>
        match PromiseAll(runs[1..])
        case AllFulfilled(rs) => AllFulfilled([r] + rs)
        case Rejected(e) => Rejected(e)
  }

  /** When every runner finishes, `Promise.all` yields their results in order. */
  lemma {:induction false} PromiseAllFulfilled(runs: seq<RunOutcome>, results: seq<ModelResult>)
    requires |results| == |runs|
    requires forall i :: 0 <= i < |runs| ==> runs[i] == Finished(results[i])
    ensures PromiseAll(runs) == AllFulfilled(results)
    decreases |runs|
  {
    if |runs| > 0 {
      assert forall i :: 0 <= i < |runs| - 1 ==> runs[1..][i] == Finished(results[1..][i]) by {
        forall i | 0 <= i < |runs| - 1 ensures runs[1..][i] == Finished(results[1..][i]) {
          assert runs[1..][i] == runs[i + 1];
        }
      }
      PromiseAllFulfilled(runs[1..], results[1..]);
      assert results == [results[0]] + results[1..];
    }
  }

  /** When run `i` throws and all before it finish, `Promise.all` rejects with run `i`'s error. */
  lemma {:induction false} PromiseAllRejected(runs: seq<RunOutcome>, i: nat)
    requires i < |runs|
    requires forall j :: 0 <= j < i ==> runs[j].Finished?
    requires runs[i].Threw?
    ensures PromiseAll(runs) == Rejected(runs[i].error)
    decreases i
  {
    if i > 0 {
      assert forall j :: 0 <= j < i - 1 ==> runs[1..][j] == runs[j + 1];
      PromiseAllRejected(runs[1..], i - 1);
    }
  }

  ghost predicate SortedBySimilarity(rs: seq<ModelResult>)
  {
    forall i, j :: 0 <= i < j < |rs| ==> rs[i].similarity >= rs[j].similarity
  }

  /** Places `r` after every entry of at least its similarity. */
  function InsertBySimilarity(r: ModelResult, sorted: seq<ModelResult>): seq<ModelResult>
  {
    if |sorted| == 0 then [r]
    else if sorted[0].similarity >= r.similarity then [sorted[0]] + InsertBySimilarity(r, sorted[1..])
    else [r] + sorted
  }

  /** `results.sort((a, b) => b.similarity - a.similarity)`, as insertion sort: a permutation of the results. */
  function SortBySimilarity(rs: seq<ModelResult>): (sorted: seq<ModelResult>)
    ensures multiset(sorted) == multiset(rs)
    decreases |rs|
  {
    if |rs| == 0 then []
    else
      var front, last := rs[..|rs| - 1], rs[|rs| - 1];
      InsertPermutes(last, SortBySimilarity(front));
      assert rs == front + [last];
      InsertBySimilarity(last, SortBySimilarity(front))
  }

  lemma {:induction false} InsertPermutes(r: ModelResult, sorted: seq<ModelResult>)
    ensures multiset(InsertBySimilarity(r, sorted)) == multiset(sorted) + multiset{r}
    decreases |sorted|
  {
    if |sorted| > 0 && sorted[0].similarity >= r.similarity {
      InsertPermutes(r, sorted[1..]);
      assert sorted == [sorted[0]] + sorted[1..];
    }
  }

  lemma {:induction false} InsertKeepsOrder(r: ModelResult, sorted: seq<ModelResult>)
    requires SortedBySimilarity(sorted)
    ensures SortedBySimilarity(InsertBySimilarity(r, sorted))
    decreases |sorted|
  {
    if |sorted| > 0 && sorted[0].similarity >= r.similarity {
      var head, tail := sorted[0], sorted[1..];
      var rest := InsertBySimilarity(r, tail);
      InsertKeepsOrder(r, tail);
      InsertPermutes(r, tail);
      var out := [head] + rest;
      assert forall x :: x in rest ==> head.similarity >= x.similarity by {
        forall x | x in rest ensures head.similarity >= x.similarity {
          assert x in multiset(rest);
          if x != r {
            assert x in multiset(tail);
          }
        }
      }
    }
  }

  /** Sorting yields a non-increasing order. */
  lemma {:induction false} SortOrders(rs: seq<ModelResult>)
    ensures SortedBySimilarity(SortBySimilarity(rs))
    decreases |rs|
  {
    if |rs| > 0 {
      SortOrders(rs[..|rs| - 1]);
      InsertKeepsOrder(rs[|rs| - 1], SortBySimilarity(rs[..|rs| - 1]));
    }
  }

  /** Sorting yields a non-increasing permutation of the results. */
  lemma SortIsOrderedPermutation(rs: seq<ModelResult>)
    ensures SortedBySimilarity(SortBySimilarity(rs))
    ensures multiset(SortBySimilarity(rs)) == multiset(rs)
  {
    SortOrders(rs);
  }

  /** The game object: results ranked by similarity, the first of them the winner. */
  function Rank(initialPhrase: string, results: seq<ModelResult>): (g: GameResult)
    ensures g.originalPhrase == initialPhrase && |g.results| == |results|
    ensures g.winner.Some? <==> |results| > 0
    ensures |results| > 0 ==> g.winner == Some(g.results[0])
  {
    var sorted := SortBySimilarity(results);
    assert |sorted| == |multiset(sorted)| == |multiset(results)| == |results|;
    GameResult(initialPhrase, sorted, if |sorted| > 0 then Some(sorted[0]) else None)
  }

  /**
   * The ranked results are a non-increasing permutation of the runners'
   * results; there is a winner exactly when there is a result, and the winner
   * is one of them with the highest similarity.
   */
  lemma RankOrdersAndPicksMaximum(initialPhrase: string, results: seq<ModelResult>)
    ensures var g := Rank(initialPhrase, results);
      && g.originalPhrase == initialPhrase
      && SortedBySimilarity(g.results)
      && multiset(g.results) == multiset(results)
      && (g.winner.Some? <==> |results| > 0)
      && (|results| > 0 ==> g.winner == Some(g.results[0]))
      && (g.winner.Some? ==> g.winner.value in results
                             && forall r :: r in results ==> r.similarity <= g.winner.value.similarity)
  {
    SortIsOrderedPermutation(results);
    var sorted := SortBySimilarity(results);
    assert |sorted| == |multiset(sorted)| == |multiset(results)| == |results|;
    if |sorted| > 0 {
      assert sorted[0] in multiset(sorted);
      forall r | r in results ensures r.similarity <= sorted[0].similarity {
        assert r in multiset(sorted);
        var j :| 0 <= j < |sorted| && sorted[j] == r;
        assert j == 0 || sorted[0].similarity >= sorted[j].similarity;
      }
    }
  }

  /** What `runTelephoneGameWithModels` resolves to, or rejects with. */
  datatype GameOutcome = Resolved(game: GameResult) | GameRejected(error: RunError)

  /**
   * `Promise.all(models.map(...))` in `runTelephoneGameWithModels`: run each
   * model in turn; the first runner that throws rejects the whole call.
   */
  method RunAll(initialPhrase: string, models: seq<ModelInfo>, generate: Request -> Reply) returns (settled: Settled)
    ensures settled == PromiseAll(Runs(initialPhrase, models, generate))
  {
    ghost var runs := Runs(initialPhrase, models, generate);
    var results: seq<ModelResult> := [];
    for i := 0 to |models|
      invariant |results| == i
      invariant forall j :: 0 <= j < i ==> runs[j] == Finished(results[j])
    {
      var run := RunTelephoneGameForModel(initialPhrase, models[i].name, models[i].modelId, generate);
      match run
      case Threw(e) =>
        PromiseAllRejected(runs, i);
        return Rejected(e);
      case Finished(r) =>
        assert runs[i] == run;
        results := results + [r];
    }
    PromiseAllFulfilled(runs, results);
    settled := AllFulfilled(results);
  }

  /**
   * `runTelephoneGameWithModels(initialPhrase)`: every competing model's run,
   * then the ranking. Any runner's error rejects the whole call.
   */
  method RunTelephoneGameWithModels(initialPhrase: string, generate: Request -> Reply) returns (outcome: GameOutcome)
    ensures outcome == match PromiseAll(Runs(initialPhrase, CompetingModels, generate))
                       case AllFulfilled(rs) => Resolved(Rank(initialPhrase, rs))
                       case Rejected(e) => GameRejected(e)
  {
    var settled := RunAll(initialPhrase, CompetingModels, generate);
    match settled
    case Rejected(e) =>
      outcome := GameRejected(e);
    case AllFulfilled(results) =>
      var sorted := SortBySimilarity(results);
      outcome := Resolved(GameResult(initialPhrase, sorted, if |sorted| > 0 then Some(sorted[0]) else None));
  }
}
