/**
 * The client page (`page.tsx`): editing the chain, the chain sent to the
 * server, the labels of the result rows, folding each model's stream of
 * updates into the displayed state, and choosing the winners.
 */
module Page {
  import opened Wrappers
  import opened Text
  import opened Translation
  import opened Scorer
  import opened StreamingActions
  import Actions

  /** How close to the best similarity a model must be to share the win. */
  const Eps: real := 0.0001

  function Abs(x: real): real
  {
    if x < 0.0 then -x else x
  }

  // ---------------------------------------------------------------------------
  // Editing the chain
  // ---------------------------------------------------------------------------

  /** `addLanguage(lang)`: the chain with `lang` appended. */
  function AddLanguage(chain: seq<string>, lang: string): (r: seq<string>)
    ensures |r| == |chain| + 1 && r[..|chain|] == chain && r[|chain|] == lang
  {
    chain + [lang]
  }

  /** `removeLanguage(index)`: the chain filtered to the positions other than `index`. */
  function RemoveLanguage(chain: seq<string>, index: int): (r: seq<string>)
    ensures |r| == if 0 <= index < |chain| then |chain| - 1 else |chain|
    decreases |chain|
  {
    if |chain| == 0 then []
    else
      var n := |chain| - 1;
      RemoveLanguage(chain[..n], index) + (if n == index then [] else [chain[n]])
  }

  /**
   * Removing an index in range deletes exactly that entry and keeps the order
   * of the rest; any other index leaves the chain as it was.
   */
  lemma {:induction false} RemoveLanguageDeletes(chain: seq<string>, index: int)
    ensures 0 <= index < |chain| ==> RemoveLanguage(chain, index) == chain[..index] + chain[index + 1..]
    ensures !(0 <= index < |chain|) ==> RemoveLanguage(chain, index) == chain
    decreases |chain|
  {
    if |chain| > 0 {
      var n := |chain| - 1;
      var front := chain[..n];
      RemoveLanguageDeletes(front, index);
      if index == n {
        assert chain[index + 1..] == [];
        assert chain[..index] == front;
      } else if 0 <= index < n {
        assert front[..index] == chain[..index];
        assert front[index + 1..] + [chain[n]] == chain[index + 1..];
      } else {
        assert front + [chain[n]] == chain;
      }
    }
  }

  /** Removing the language just added gives back the chain. */
  lemma RemoveUndoesAdd(chain: seq<string>, lang: string)
    ensures RemoveLanguage(AddLanguage(chain, lang), |chain|) == chain
  {
    var added := AddLanguage(chain, lang);
    RemoveLanguageDeletes(added, |chain|);
    assert added[..|chain|] == chain;
  }

  // ---------------------------------------------------------------------------
  // The chain sent to the server, and the rows shown for it
  // ---------------------------------------------------------------------------

  /** `serverChain`: every chosen language, then English. */
  function ServerChain(chain: seq<string>): (r: seq<ChainEntry>)
    ensures |r| == |chain| + 1
    ensures forall i :: 0 <= i < |chain| ==> r[i] == ChainEntry(chain[i])
    ensures r[|chain|] == ChainEntry("English")
  {
    seq(|chain|, i requires 0 <= i < |chain| => ChainEntry(chain[i])) + [ChainEntry("English")]
  }

  /** The label of row `stepIndex` of the result grid. */
  function RowLabel(chain: seq<string>, stepIndex: nat): string
    requires stepIndex < |chain| + 2
  {
    if stepIndex == 0 then "Original"
    else if stepIndex == |chain| + 1 then "English (Final)"
    else chain[stepIndex - 1]
  }

  /** The labels of all the rows, `Array.from({ length: chain.length + 2 })`. */
  function RowLabels(chain: seq<string>): (labels: seq<string>)
    ensures |labels| == |chain| + 2
  {
    seq(|chain| + 2, i requires 0 <= i < |chain| + 2 => RowLabel(chain, i))
  }

  /**
   * There is a row for the original phrase, one per chosen language and one
   * for the final English text; the rows between the first and the last are
   * labelled with the chain's languages in order, which are the languages of
   * the first `|chain|` server steps, and the last row stands for the server's
   * final English step.
   */
  lemma RowLabelsShape(chain: seq<string>)
    ensures var labels := RowLabels(chain);
      && |labels| == |chain| + 2
      && labels[0] == "Original"
      && labels[|chain| + 1] == "English (Final)"
      && (forall i :: 1 <= i <= |chain| ==> labels[i] == chain[i - 1] && labels[i] == ServerChain(chain)[i - 1].lang)
      && ServerChain(chain)[|chain|].lang == "English"
  {
  }

  // ---------------------------------------------------------------------------
  // The state shown for each model
  // ---------------------------------------------------------------------------

  /**
   * A key of a model's `steps` record. `page.tsx` writes under
   * `update.stepIndex`, which `StreamUpdate` does not have, so at run time the
   * key is `undefined`; `Row(i)` is the key of the grid row `i`.
   */
  datatype StepKey = Row(index: int) | Undefined

  datatype ModelStreamState = ModelStreamState(modelName: string, steps: map<StepKey, string>,
                                               isProcessing: bool, similarity: Option<real>)

  /** The state of one model when a game starts: the input in row 0, processing. */
  function StartState(modelName: string, input: string): ModelStreamState
  {
    ModelStreamState(modelName, map[Row(0) := input], true, None)
  }

  /** `initialStates`: one starting state per model, keyed by its name. */
  function InitialStates(models: seq<Actions.ModelInfo>, input: string): (states: map<string, ModelStreamState>)
    ensures forall k :: 0 <= k < |models| ==> models[k].name in states
    decreases |models|
  {
    if |models| == 0 then map[]
    else
      var n := |models| - 1;
      InitialStates(models[..n], input)[models[n].name := StartState(models[n].name, input)]
  }

  /** The names of `models`. */
  function Names(models: seq<Actions.ModelInfo>): set<string>
  {
    set i | 0 <= i < |models| :: models[i].name
  }

  /** Every model has an entry, and only the models do; each entry is a fresh start state. */
  lemma {:induction false} InitialStatesShape(models: seq<Actions.ModelInfo>, input: string)
    ensures InitialStates(models, input).Keys == Names(models)
    ensures forall name :: name in InitialStates(models, input) ==> InitialStates(models, input)[name] == StartState(name, input)
    decreases |models|
  {
    if |models| > 0 {
      var n := |models| - 1;
      InitialStatesShape(models[..n], input);
      assert Names(models) == Names(models[..n]) + {models[n].name} by {
        forall name | name in Names(models) ensures name in Names(models[..n]) + {models[n].name} {
          var i :| 0 <= i < |models| && models[i].name == name;
          if i < n {
            assert models[..n][i] == models[i];
          }
        }
        forall name | name in Names(models[..n]) ensures name in Names(models) {
          var i :| 0 <= i < n && models[..n][i].name == name;
          assert models[i].name == name;
        }
      }
    }
  }

  /** The `steps` a model had before the update: `prev[update.modelName]?.steps`, empty when absent. */
  function PreviousSteps(prev: map<string, ModelStreamState>, modelName: string): map<StepKey, string>
  {
    if modelName in prev then prev[modelName].steps else map[]
  }

  /** The state update of `page.tsx` for one update, written under `key`. */
  function MergeUnder(prev: map<string, ModelStreamState>, update: StreamUpdate, key: StepKey): map<string, ModelStreamState>
  {
    prev[update.modelName := ModelStreamState(update.modelName, PreviousSteps(prev, update.modelName)[key := update.text],
                                              !update.isComplete, update.similarity)]
  }

  /** The merge as written: the key is `update.stepIndex`, which is always `undefined`. */
  function MergeAsWritten(prev: map<string, ModelStreamState>, update: StreamUpdate): (next: map<string, ModelStreamState>)
    ensures update.modelName in next
    ensures next[update.modelName].steps.Keys == PreviousSteps(prev, update.modelName).Keys + {Undefined}
  {
    MergeUnder(prev, update, Undefined)
  }

  /** The merge with the row of the update given explicitly, as the page evidently intends. */
  function MergeUpdate(prev: map<string, ModelStreamState>, update: StreamUpdate, stepIndex: int): (next: map<string, ModelStreamState>)
    ensures update.modelName in next && Row(stepIndex) in next[update.modelName].steps
    ensures next[update.modelName].steps[Row(stepIndex)] == update.text
  {
    MergeUnder(prev, update, Row(stepIndex))
  }

  /**
   * Merging an update touches the updating model's entry only; in it, only row
   * `stepIndex` changes, to the update's text; `isProcessing` becomes
   * `!isComplete` and the similarity becomes the update's, absent or not.
   */
  lemma MergeUpdateFrame(prev: map<string, ModelStreamState>, update: StreamUpdate, stepIndex: int)
    ensures var next := MergeUpdate(prev, update, stepIndex);
      && next.Keys == prev.Keys + {update.modelName}
      && (forall name :: name in prev && name != update.modelName ==> next[name] == prev[name])
      && next[update.modelName].modelName == update.modelName
      && next[update.modelName].steps.Keys == PreviousSteps(prev, update.modelName).Keys + {Row(stepIndex)}
      && next[update.modelName].steps[Row(stepIndex)] == update.text
      && (forall key :: key in PreviousSteps(prev, update.modelName) && key != Row(stepIndex) ==>
            next[update.modelName].steps[key] == PreviousSteps(prev, update.modelName)[key])
      && next[update.modelName].isProcessing == !update.isComplete
      && next[update.modelName].similarity == update.similarity
  {
  }

  /**
   * Two adjacent updates of different models may be swapped without changing
   * the state. `InterleavedStreams` below proves the general claim: any
   * interleaving that keeps each model's own order gives the same state.
   */
  lemma MergeCommutes(prev: map<string, ModelStreamState>, u1: StreamUpdate, i1: int, u2: StreamUpdate, i2: int)
    requires u1.modelName != u2.modelName
    ensures MergeUpdate(MergeUpdate(prev, u1, i1), u2, i2) == MergeUpdate(MergeUpdate(prev, u2, i2), u1, i1)
  {
    var a := MergeUpdate(MergeUpdate(prev, u1, i1), u2, i2);
    var b := MergeUpdate(MergeUpdate(prev, u2, i2), u1, i1);
    assert a.Keys == b.Keys;
    forall name | name in a ensures a[name] == b[name] {
    }
  }

  /** The updates merged in order, update `p` under row `rows[p]`. */
  function MergeAll(states: map<string, ModelStreamState>, updates: seq<StreamUpdate>, rows: seq<int>): map<string, ModelStreamState>
    requires |rows| == |updates|
    decreases |updates|
  {
    if |updates| == 0 then states
    else
      var n := |updates| - 1;
      MergeUpdate(MergeAll(states, updates[..n], rows[..n]), updates[n], rows[n])
  }

  /** The updates merged in order as written, all under the key `undefined`. */
  function MergeAllAsWritten(states: map<string, ModelStreamState>, updates: seq<StreamUpdate>): map<string, ModelStreamState>
    decreases |updates|
  {
    if |updates| == 0 then states
    else MergeAsWritten(MergeAllAsWritten(states, updates[..|updates| - 1]), updates[|updates| - 1])
  }

  /**
   * As written, no update ever reaches a grid row: whatever the stream
   * yields, every row's text is the one of the start state, so only the
   * original phrase is shown.
   */
  lemma {:induction false} AsWrittenRowsStayEmpty(models: seq<Actions.ModelInfo>, input: string, updates: seq<StreamUpdate>)
    ensures var states := MergeAllAsWritten(InitialStates(models, input), updates);
      forall name, i :: name in states && Row(i) in states[name].steps ==>
        name in Names(models) && i == 0 && states[name].steps[Row(0)] == input
    decreases |updates|
  {
    InitialStatesShape(models, input);
    if |updates| > 0 {
      AsWrittenRowsStayEmpty(models, input, updates[..|updates| - 1]);
    }
  }

  /** A concrete case: after the first French chunk arrives, the French row is still empty. */
  lemma AsWrittenLosesFrenchRow()
    ensures var name := Actions.CompetingModels[0].name;
      var states := MergeAsWritten(InitialStates(Actions.CompetingModels, "Hello"),
                                   StreamUpdate(name, "French", "Bonjour", false, None));
      name in states && Row(1) !in states[name].steps && states[name].steps[Undefined] == "Bonjour"
  {
    var name := Actions.CompetingModels[0].name;
    InitialStatesShape(Actions.CompetingModels, "Hello");
    assert name in Names(Actions.CompetingModels);
  }

  /**
   * The row an update evidently belongs to, which `StreamUpdate` does not
   * carry, worked out from the updates alone: the first update (the original
   * phrase) is row 0, the row advances after it and after every completion,
   * and it never passes `lastRow`, the row of the final English text.
   */
  function RowsFrom(updates: seq<StreamUpdate>, row: nat, lastRow: nat): (rows: seq<nat>)
    ensures |rows| == |updates|
    decreases |updates|
  {
    if |updates| == 0 then []
    else [Capped(row, lastRow)] + RowsFrom(updates[1..], NextRow(updates[0], row), lastRow)
  }

  /** A row number that never passes `lastRow`. */
  function Capped(row: nat, lastRow: nat): nat
  {
    if row <= lastRow then row else lastRow
  }

  /** The row after an update at `row`: the original phrase and every completion end their row. */
  function NextRow(update: StreamUpdate, row: nat): nat
  {
    if row == 0 || update.isComplete then row + 1 else row
  }


  /** One unfolding of `RowsFrom`, for a non-empty list. */
  lemma RowsCons(us: seq<StreamUpdate>, row: nat, lastRow: nat)
    requires |us| > 0
    ensures RowsFrom(us, row, lastRow) == [Capped(row, lastRow)] + RowsFrom(us[1..], NextRow(us[0], row), lastRow)
  {
  }

  /** Taking the first update off a list takes off its completion, if it is one. */
  lemma CompletionsCons(us: seq<StreamUpdate>)
    requires |us| > 0
    ensures |Completions(us)| == |Completions(us[1..])| + if us[0].isComplete then 1 else 0
  {
    assert us == [us[0]] + us[1..];
    CompletionsAppend([us[0]], us[1..]);
    CompletionsSingle(us[0]);
  }

  /** Regrouping `whole == head + (x + y)` when `left == head + x`. */
  lemma Regroup(whole: seq<nat>, left: seq<nat>, head: seq<nat>, x: seq<nat>, y: seq<nat>)
    requires whole == head + (x + y) && left == head + x
    ensures whole == left + y
  {
    AppendAssociates(head, x, y);
  }

  /** Past the first update, the rows of two lists in a row continue from the completions of the first. */
  lemma {:induction false} RowsAppend(a: seq<StreamUpdate>, b: seq<StreamUpdate>, row: nat, lastRow: nat)
    requires row >= 1
    ensures RowsFrom(a + b, row, lastRow) == RowsFrom(a, row, lastRow) + RowsFrom(b, row + |Completions(a)|, lastRow)
    decreases |a|
  {
    if |a| == 0 {
      assert a + b == b;
    } else {
      var next := NextRow(a[0], row);
      assert (a + b)[0] == a[0] && (a + b)[1..] == a[1..] + b;
      RowsCons(a + b, row, lastRow);
      RowsCons(a, row, lastRow);
      RowsAppend(a[1..], b, next, lastRow);
      CompletionsCons(a);
      Regroup(RowsFrom(a + b, row, lastRow), RowsFrom(a, row, lastRow), [Capped(row, lastRow)],
              RowsFrom(a[1..], next, lastRow), RowsFrom(b, row + |Completions(a)|, lastRow));
    }
  }

  /** All the updates of one step, whose only completion is the last, share one row. */
  lemma {:induction false} RowsOfStep(step: seq<StreamUpdate>, row: nat, lastRow: nat)
    requires row >= 1
    requires forall i :: 0 <= i < |step| ==> (step[i].isComplete <==> i == |step| - 1)
    ensures forall i :: 0 <= i < |step| ==> RowsFrom(step, row, lastRow)[i] == Capped(row, lastRow)
    decreases |step|
  {
    if |step| > 1 {
      assert forall i :: 0 <= i < |step| - 1 ==> step[1..][i] == step[i + 1];
      RowsOfStep(step[1..], row, lastRow);
    }
  }

  /** Update `q` of `us` sits in row `rows[q]`, between 1 and `|chain|`, and carries the language of that chain entry. */
  ghost predicate Lands(us: seq<StreamUpdate>, rows: seq<nat>, chain: seq<ChainEntry>)
  {
    |rows| == |us| && forall q :: 0 <= q < |us| ==> 1 <= rows[q] <= |chain| && us[q].language == chain[rows[q] - 1].lang
  }

  /** The inductive step of `ChainRows`, for lists of updates in general. */
  lemma LandsStep(before: seq<StreamUpdate>, rowsBefore: seq<nat>, step: seq<StreamUpdate>, rowsStep: seq<nat>,
                  chain: seq<ChainEntry>)
    requires |chain| > 0 && Lands(before, rowsBefore, chain[..|chain| - 1])
    requires |rowsStep| == |step|
    requires forall i :: 0 <= i < |step| ==> rowsStep[i] == |chain| && step[i].language == chain[|chain| - 1].lang
    ensures Lands(before + step, rowsBefore + rowsStep, chain)
  {
    var us, rows := before + step, rowsBefore + rowsStep;
    forall q | 0 <= q < |us| ensures 1 <= rows[q] <= |chain| && us[q].language == chain[rows[q] - 1].lang {
      if q < |before| {
        assert chain[..|chain| - 1][rows[q] - 1] == chain[rows[q] - 1];
      } else {
        assert us[q] == step[q - |before|] && rows[q] == rowsStep[q - |before|];
      }
    }
  }

  /** Counting from row 1, the updates of step `k` of the chain all land in row `k + 1`. */
  lemma {:induction false} ChainRows(input: string, modelName: string, modelId: string, stream: StreamCall -> StreamReply,
                                     chain: seq<ChainEntry>, lastRow: nat)
    requires |chain| <= lastRow
    ensures var cu := ChainUpdates(input, modelName, modelId, stream, chain);
      Lands(cu, RowsFrom(cu, 1, lastRow), chain)
    decreases |chain|
  {
    if |chain| > 0 {
      var n := |chain| - 1;
      var front := chain[..n];
      var lang := chain[n].lang;
      var reply := stream(StreamCall(n, Request(modelId, lang, TextAfter(input, modelId, stream, front))));
      var before := ChainUpdates(input, modelName, modelId, stream, front);
      var step := StepUpdates(modelName, lang, reply);
      assert ChainUpdates(input, modelName, modelId, stream, chain) == before + step;
      ChainRows(input, modelName, modelId, stream, front, lastRow);
      ChainCompletions(input, modelName, modelId, stream, front);
      RowsAppend(before, step, 1, lastRow);
      StepUpdatesShape(modelName, lang, reply);
      RowsOfStep(step, 1 + n, lastRow);
      LandsStep(before, RowsFrom(before, 1, lastRow), step, RowsFrom(step, 1 + n, lastRow), chain);
    }
  }

  /** Framed by the original update and the final one, the chain's rows start at 0 and end at `lastRow`. */
  lemma RowsAround(u: seq<StreamUpdate>, first: StreamUpdate, cu: seq<StreamUpdate>, last: StreamUpdate, lastRow: nat)
    requires u == [first] + cu + [last] && |Completions(cu)| == lastRow
    ensures RowsFrom(u, 0, lastRow) == [0] + (RowsFrom(cu, 1, lastRow) + [lastRow])
  {
    assert u[1..] == cu + [last];
    RowsAppend(cu, [last], 1, lastRow);
  }

  /**
   * Row 0 holds the first update and row `|chain|` the last; every update in
   * between sits in a row between 1 and `|chain|` and carries the language of
   * that chain entry.
   */
  ghost predicate Framed(u: seq<StreamUpdate>, rows: seq<nat>, chain: seq<ChainEntry>)
  {
    && |rows| == |u| >= 2 && rows[0] == 0 && rows[|u| - 1] == |chain|
    && forall p :: 0 < p < |u| - 1 ==> 1 <= rows[p] <= |chain| && u[p].language == chain[rows[p] - 1].lang
  }

  /** Every update sits in a row of the grid, and in a row labelled with its language. */
  ghost predicate Labelled(u: seq<StreamUpdate>, rows: seq<nat>, chain: seq<string>)
  {
    && |rows| == |u| > 0 && rows[0] == 0 && rows[|u| - 1] == |chain| + 1
    && forall p :: 0 <= p < |u| ==>
         && rows[p] < |chain| + 2
         && (rows[p] <= |chain| ==> u[p].language == RowLabel(chain, rows[p]))
         && (rows[p] == |chain| + 1 ==> u[p].language == "English")
  }

  /** The updates of the chain keep their rows inside the frame. */
  lemma LandsAround(u: seq<StreamUpdate>, first: StreamUpdate, cu: seq<StreamUpdate>, last: StreamUpdate,
                    sc: seq<ChainEntry>)
    requires u == [first] + cu + [last]
    requires |Completions(cu)| == |sc|
    requires Lands(cu, RowsFrom(cu, 1, |sc|), sc)
    ensures Framed(u, RowsFrom(u, 0, |sc|), sc)
  {
    RowsAround(u, first, cu, last, |sc|);
    var rc := RowsFrom(cu, 1, |sc|);
    var rows := RowsFrom(u, 0, |sc|);
    forall p | 0 < p < |u| - 1
      ensures rows[p] == rc[p - 1] && u[p] == cu[p - 1]
    {
    }
  }

  /** Landing in the server chain's entries means landing in the row labelled with that language. */
  lemma LandsLabelled(u: seq<StreamUpdate>, rows: seq<nat>, chain: seq<string>, sc: seq<ChainEntry>)
    requires sc == ServerChain(chain)
    requires Framed(u, rows, sc)
    requires u[0].language == "Original" && u[|u| - 1].language == "English"
    ensures Labelled(u, rows, chain)
  {
    forall p | 0 <= p < |u|
      ensures rows[p] < |chain| + 2
      ensures rows[p] <= |chain| ==> u[p].language == RowLabel(chain, rows[p])
      ensures rows[p] == |chain| + 1 ==> u[p].language == "English"
    {
      if 0 < p < |u| - 1 {
        var r := rows[p];
        assert u[p].language == sc[r - 1].lang;
        if r <= |chain| {
          assert sc[r - 1] == ChainEntry(chain[r - 1]);
        } else {
          assert sc[r - 1] == ChainEntry("English");
        }
      }
    }
  }

  /** The chain's updates, counted from row 1, land in their entries, one row per completion. */
  lemma ChainLands(input: string, modelName: string, modelId: string, stream: StreamCall -> StreamReply, sc: seq<ChainEntry>)
    ensures var cu := ChainUpdates(input, modelName, modelId, stream, sc);
      |Completions(cu)| == |sc| && Lands(cu, RowsFrom(cu, 1, |sc|), sc)
  {
    ChainRows(input, modelName, modelId, stream, sc, |sc|);
    ChainCompletions(input, modelName, modelId, stream, sc);
  }

  /** `LandsAround` and `LandsLabelled` together, for a chain's updates framed by the original and the final one. */
  lemma LabelledAround(u: seq<StreamUpdate>, first: StreamUpdate, cu: seq<StreamUpdate>, last: StreamUpdate,
                       chain: seq<string>, sc: seq<ChainEntry>)
    requires u == [first] + cu + [last]
    requires sc == ServerChain(chain) && |Completions(cu)| == |sc|
    requires Lands(cu, RowsFrom(cu, 1, |sc|), sc)
    requires first.language == "Original" && last.language == "English"
    ensures Labelled(u, RowsFrom(u, 0, |chain| + 1), chain)
  {
    LandsAround(u, first, cu, last, sc);
    assert |sc| == |chain| + 1;
    LandsLabelled(u, RowsFrom(u, 0, |sc|), chain, sc);
  }

  /**
   * With those rows every update the server streams for the chain lands in
   * the row labelled with its language: the original phrase in row 0, the
   * updates of the `i`-th chosen language in row `i`, and the updates of the
   * English step and the final update in the last row, "English (Final)".
   */
  lemma UpdatesLandInTheirRows(input: string, modelName: string, modelId: string, stream: StreamCall -> StreamReply,
                               chain: seq<string>)
    ensures var u := StreamingUpdates(input, modelName, modelId, stream, ServerChain(chain));
      Labelled(u, RowsFrom(u, 0, |chain| + 1), chain)
  {
    var sc := ServerChain(chain);
    var lastRow := |chain| + 1;
    var first := StreamUpdate(modelName, "Original", input, false, None);
    var cu := ChainUpdates(input, modelName, modelId, stream, sc);
    var last := FinalUpdate(input, modelName, TextAfter(input, modelId, stream, sc));
    ChainLands(input, modelName, modelId, stream, sc);
    var u := StreamingUpdates(input, modelName, modelId, stream, sc);
    LabelledAround(u, first, cu, last, chain, sc);
  }

  /** The similarity left by the last update that had one, or `initial` when none did. */
  function LastSimilarity(updates: seq<StreamUpdate>, initial: real): (r: real)
    ensures r == initial || exists p :: 0 <= p < |updates| && updates[p].similarity == Some(r)
    decreases |updates|
  {
    if |updates| == 0 then initial
    else
      var last := updates[|updates| - 1];
      if last.similarity.Some? then last.similarity.value else LastSimilarity(updates[..|updates| - 1], initial)
  }

  /** With no update carrying a similarity, `initial` is kept. */
  lemma {:induction false} LastSimilarityNone(updates: seq<StreamUpdate>, initial: real)
    requires forall p :: 0 <= p < |updates| ==> updates[p].similarity == None
    ensures LastSimilarity(updates, initial) == initial
    decreases |updates|
  {
    if |updates| > 0 {
      var n := |updates| - 1;
      assert forall p :: 0 <= p < n ==> updates[..n][p] == updates[p];
      LastSimilarityNone(updates[..n], initial);
    }
  }

  /** Otherwise it is the similarity of the last update that carries one. */
  lemma {:induction false} LastSimilarityIsLastDefined(updates: seq<StreamUpdate>, initial: real, p: nat)
    requires p < |updates| && updates[p].similarity.Some?
    requires forall q :: p < q < |updates| ==> updates[q].similarity == None
    ensures LastSimilarity(updates, initial) == updates[p].similarity.value
    decreases |updates|
  {
    var n := |updates| - 1;
    if p < n {
      assert forall q :: p < q < n ==> updates[..n][q] == updates[q];
      LastSimilarityIsLastDefined(updates[..n], initial, p);
    }
  }

  /**
   * The `for await` loop of one model in `handleStart`: merge every update
   * into the shown state (update `p` into row `rows[p]`, the row
   * `StreamUpdate` does not carry) and keep the last similarity seen,
   * starting from 0.
   */
  method ConsumeStream(states: map<string, ModelStreamState>, updates: seq<StreamUpdate>, rows: seq<int>)
    returns (finalStates: map<string, ModelStreamState>, finalSimilarity: real)
    requires |rows| == |updates|
    ensures finalStates == MergeAll(states, updates, rows)
    ensures finalSimilarity == LastSimilarity(updates, 0.0)
  {
    finalStates := states;
    finalSimilarity := 0.0;
    for p := 0 to |updates|
      invariant finalStates == MergeAll(states, updates[..p], rows[..p])
      invariant finalSimilarity == LastSimilarity(updates[..p], 0.0)
    {
      assert updates[..p + 1][..p] == updates[..p];
      assert rows[..p + 1][..p] == rows[..p];
      var update := updates[p];
      finalStates := MergeUpdate(finalStates, update, rows[p]);
      if update.similarity.Some? {
        finalSimilarity := update.similarity.value;
      }
    }
    assert updates[..|updates|] == updates;
    assert rows[..|rows|] == rows;
  }

  /**
   * Consuming a whole streaming run leaves the similarity of its final
   * update: the run's final text scored against the input, in [0, 1].
   */
  lemma ConsumedSimilarity(input: string, modelName: string, modelId: string,
                           stream: StreamCall -> StreamReply, chain: seq<ChainEntry>)
    ensures var finalText := TextAfter(input, modelId, stream, chain);
      && LastSimilarity(StreamingUpdates(input, modelName, modelId, stream, chain), 0.0) == Similarity(input, finalText)
      && 0.0 <= Similarity(input, finalText) <= 1.0
  {
    StreamingShape(input, modelName, modelId, stream, chain);
  }

  // ---------------------------------------------------------------------------
  // Choosing the winners
  // ---------------------------------------------------------------------------

  /** What each model's run resolves to in `handleStart`. */
  datatype Candidate = Candidate(modelName: string, similarity: real)

  /** `maxSimilarity` after scanning `results`, starting from -1. */
  function Best(results: seq<Candidate>): (b: real)
    ensures b >= -1.0
    ensures forall i :: 0 <= i < |results| ==> results[i].similarity <= b
    decreases |results|
  {
    if |results| == 0 then -1.0
    else
      var rest := Best(results[..|results| - 1]);
      var s := results[|results| - 1].similarity;
      if s > rest then s else rest
  }

  /**
   * The scan yields -1 for no results; otherwise no result is above it, and
   * it is one of the similarities unless all of them are below -1.
   */
  lemma {:induction false} BestIsMaximum(results: seq<Candidate>)
    ensures |results| == 0 ==> Best(results) == -1.0
    ensures forall i :: 0 <= i < |results| ==> results[i].similarity <= Best(results)
    ensures Best(results) == -1.0 || exists i :: 0 <= i < |results| && results[i].similarity == Best(results)
    ensures Best(results) >= -1.0
    decreases |results|
  {
    if |results| > 0 {
      var n := |results| - 1;
      BestIsMaximum(results[..n]);
      forall i | 0 <= i < n ensures results[..n][i] == results[i] {
      }
    }
  }

  /** With scores that are never below -1, as every similarity is, the best one is attained. */
  lemma BestAttained(results: seq<Candidate>)
    requires |results| > 0
    requires forall i :: 0 <= i < |results| ==> results[i].similarity >= -1.0
    ensures exists i :: 0 <= i < |results| && results[i].similarity == Best(results)
  {
    BestIsMaximum(results);
    if Best(results) == -1.0 {
      assert results[0].similarity <= -1.0;
      assert results[0].similarity == Best(results);
    }
  }

  /** The max scan of `handleStart`. */
  method MaxSimilarity(results: seq<Candidate>) returns (maxSimilarity: real)
    ensures maxSimilarity == Best(results)
  {
    maxSimilarity := -1.0;
    for i := 0 to |results|
      invariant maxSimilarity == Best(results[..i])
    {
      assert results[..i + 1][..i] == results[..i];
      if results[i].similarity > maxSimilarity {
        maxSimilarity := results[i].similarity;
      }
    }
    assert results[..|results|] == results;
  }

  predicate Close(r: Candidate, maxSimilarity: real)
  {
    Abs(r.similarity - maxSimilarity) < Eps
  }

  /** `winningModels`: the results within `Eps` of `maxSimilarity`, in their order. */
  function WinningModels(results: seq<Candidate>, maxSimilarity: real): (winners: seq<Candidate>)
    ensures |winners| <= |results|
    ensures forall i :: 0 <= i < |winners| ==> Close(winners[i], maxSimilarity)
    decreases |results|
  {
    if |results| == 0 then []
    else
      var n := |results| - 1;
      WinningModels(results[..n], maxSimilarity) + (if Close(results[n], maxSimilarity) then [results[n]] else [])
  }

  /** `a` is `b` with some entries left out, order kept. */
  ghost predicate SubsequenceOf(a: seq<Candidate>, b: seq<Candidate>)
    decreases |b|
  {
    || |a| == 0
    || (&& |b| > 0
        && ((a[|a| - 1] == b[|b| - 1] && SubsequenceOf(a[..|a| - 1], b[..|b| - 1])) || SubsequenceOf(a, b[..|b| - 1])))
  }

  /** Each result is among the winners as often as in the results when it is close to the maximum, else never. */
  lemma {:induction false} WinningModelsCount(results: seq<Candidate>, maxSimilarity: real)
    ensures forall r :: multiset(WinningModels(results, maxSimilarity))[r]
                        == if Close(r, maxSimilarity) then multiset(results)[r] else 0
    decreases |results|
  {
    if |results| > 0 {
      var n := |results| - 1;
      WinningModelsCount(results[..n], maxSimilarity);
      assert results == results[..n] + [results[n]];
    }
  }

  /** So the winners are exactly the results close to the maximum. */
  lemma WinningModelsMembers(results: seq<Candidate>, maxSimilarity: real)
    ensures forall r :: r in WinningModels(results, maxSimilarity) <==> r in results && Close(r, maxSimilarity)
  {
    WinningModelsCount(results, maxSimilarity);
    forall r ensures r in WinningModels(results, maxSimilarity) <==> r in results && Close(r, maxSimilarity) {
      assert r in WinningModels(results, maxSimilarity) <==> multiset(WinningModels(results, maxSimilarity))[r] > 0;
      assert r in results <==> multiset(results)[r] > 0;
    }
  }

  /** The winners keep the order of the results. */
  lemma {:induction false} WinningModelsInOrder(results: seq<Candidate>, maxSimilarity: real)
    ensures SubsequenceOf(WinningModels(results, maxSimilarity), results)
    decreases |results|
  {
    if |results| > 0 {
      var n := |results| - 1;
      WinningModelsInOrder(results[..n], maxSimilarity);
      var w := WinningModels(results, maxSimilarity);
      var w' := WinningModels(results[..n], maxSimilarity);
      if Close(results[n], maxSimilarity) {
        assert w == w' + [results[n]];
        assert w[..|w| - 1] == w' && w[|w| - 1] == results[n];
      } else {
        assert w == w';
      }
    }
  }

  /** There is a winner whenever there is a result, all similarities being at least -1. */
  lemma WinnersNonEmpty(results: seq<Candidate>)
    requires |results| > 0
    requires forall i :: 0 <= i < |results| ==> results[i].similarity >= -1.0
    ensures |WinningModels(results, Best(results))| > 0
  {
    BestAttained(results);
    WinningModelsMembers(results, Best(results));
    var i :| 0 <= i < |results| && results[i].similarity == Best(results);
    assert Close(results[i], Best(results));
    assert results[i] in results;
  }

  /** Every result left out of the winners is at least `Eps` below the maximum. */
  lemma ExcludedBelowBest(results: seq<Candidate>)
    ensures forall i :: 0 <= i < |results| && !Close(results[i], Best(results)) ==>
      results[i].similarity <= Best(results) - Eps
  {
    BestIsMaximum(results);
  }

  /** The winner selection of `handleStart`: the max scan, then the filter. */
  method SelectWinners(results: seq<Candidate>) returns (winners: seq<Candidate>)
    ensures winners == WinningModels(results, Best(results))
  {
    var maxSimilarity := MaxSimilarity(results);
    winners := WinningModels(results, maxSimilarity);
  }

  // ---------------------------------------------------------------------------
  // Starting a game
  // ---------------------------------------------------------------------------

  /** The guard of `handleStart` and of the Start button: the input is not blank. */
  predicate ShouldStart(input: string)
    ensures ShouldStart(input) ==> |input| > 0
  {
    Trim(input) != ""
  }

  /** A game starts exactly when the input has a character that is not whitespace. */
  lemma ShouldStartIffVisible(input: string)
    ensures ShouldStart(input) <==> exists i :: 0 <= i < |input| && !IsWhitespace(input[i])
  {
  }

  /** The row every update of a run for `chain` is shown in: the rows worked out by `RowsFrom`. */
  function RunRows(updates: seq<StreamUpdate>, chain: seq<string>): (rows: seq<nat>)
    ensures |rows| == |updates|
  {
    RowsFrom(updates, 0, |chain| + 1)
  }

  /** Everything model `model` streams in a game on `chain`. */
  function RunUpdates(input: string, chain: seq<string>, model: Actions.ModelInfo, stream: StreamCall -> StreamReply): seq<StreamUpdate>
  {
    StreamingUpdates(input, model.name, model.modelId, stream, ServerChain(chain))
  }

  /** `f` applied to every element of `xs`, in order. */
  function MapSeq<A, B>(xs: seq<A>, f: A -> B): (ys: seq<B>)
    ensures |ys| == |xs|
    decreases |xs|
  {
    if |xs| == 0 then []
    else
      var n := |xs| - 1;
      MapSeq(xs[..n], f) + [f(xs[n])]
  }

  lemma {:induction false} MapSeqAt<A, B>(xs: seq<A>, f: A -> B, k: nat)
    requires k < |xs|
    ensures MapSeq(xs, f)[k] == f(xs[k])
    decreases |xs|
  {
    var n := |xs| - 1;
    if k < n {
      MapSeqAt(xs[..n], f, k);
      assert xs[..n][k] == xs[k];
    }
  }

  /** The models' streams, one per model: they share no state, so running them together is a map. */
  function Streams(input: string, chain: seq<string>, models: seq<Actions.ModelInfo>, stream: StreamCall -> StreamReply)
    : (runs: seq<seq<StreamUpdate>>)
    ensures |runs| == |models|
  {
    MapSeq(models, model => RunUpdates(input, chain, model, stream))
  }

  /** The `k`-th stream is the run of the `k`-th model. */
  lemma StreamsAt(input: string, chain: seq<string>, models: seq<Actions.ModelInfo>, stream: StreamCall -> StreamReply, k: nat)
    requires k < |models|
    ensures Streams(input, chain, models, stream)[k] == RunUpdates(input, chain, models[k], stream)
  {
    MapSeqAt(models, model => RunUpdates(input, chain, model, stream), k);
  }

  /** The shown state once the streams in `runs` have been merged into `states`, one stream after the other. */
  function PlayedStates(states: map<string, ModelStreamState>, runs: seq<seq<StreamUpdate>>, chain: seq<string>)
    : map<string, ModelStreamState>
    decreases |runs|
  {
    if |runs| == 0 then states
    else
      var n := |runs| - 1;
      MergeAll(PlayedStates(states, runs[..n], chain), runs[n], RunRows(runs[n], chain))
  }

  /** What each model's run resolves to: its name and the last similarity its stream carried. */
  function Candidates(runs: seq<seq<StreamUpdate>>, models: seq<Actions.ModelInfo>): (cs: seq<Candidate>)
    requires |runs| == |models|
    ensures |cs| == |models|
    decreases |models|
  {
    if |models| == 0 then []
    else
      var n := |models| - 1;
      Candidates(runs[..n], models[..n]) + [Candidate(models[n].name, LastSimilarity(runs[n], 0.0))]
  }

  /** The outcome of pressing Start. */
  datatype Game = NotStarted | Played(states: map<string, ModelStreamState>, winners: seq<Candidate>)

  /**
   * `handleStart`: nothing happens for a blank input; otherwise every
   * configured model starts from its initial state, its stream is run on the
   * server chain and merged into the shown state, and the winners are chosen
   * among the models' final similarities. A started game always has a
   * winner. Each update is merged under the row `RunRows` gives it, the row
   * the page evidently intends; the page as written keys every update by
   * `undefined` (see `MergeAsWritten`), and then no row past row 0 is filled.
   * With the intended rows, every model's entry ends showing its finished run.
   */
  method HandleStart(input: string, chain: seq<string>, stream: StreamCall -> StreamReply) returns (game: Game)
    ensures !ShouldStart(input) ==> game == NotStarted
    ensures ShouldStart(input) ==>
      var runs := Streams(input, chain, Actions.CompetingModels, stream);
      var cs := Candidates(runs, Actions.CompetingModels);
      && game.Played?
      && game.states == PlayedStates(InitialStates(Actions.CompetingModels, input), runs, chain)
      && game.winners == WinningModels(cs, Best(cs))
      && |game.winners| > 0
      && forall k :: 0 <= k < |Actions.CompetingModels| ==>
           var finalText := TextAfter(input, Actions.CompetingModels[k].modelId, stream, ServerChain(chain));
           Shows(game.states, Actions.CompetingModels[k].name, chain, finalText, Similarity(input, finalText))
  {
    if !ShouldStart(input) {
      return NotStarted;
    }
    var models := Actions.CompetingModels;
    var states, results := PlayAll(InitialStates(models, input), input, chain, models, stream);
    GameHasWinners(input, chain, models, stream);
    CompetingModelsDistinct();
    PlayedShowsAll(input, chain, models, stream);
    var winners := SelectWinners(results);
    game := Played(states, winners);
  }

  /**
   * The models' part of `handleStart`: each model's run is merged into the
   * shown state in turn and its candidate recorded.
   */
  method PlayAll(states0: map<string, ModelStreamState>, input: string, chain: seq<string>, models: seq<Actions.ModelInfo>,
                 stream: StreamCall -> StreamReply)
    returns (states: map<string, ModelStreamState>, results: seq<Candidate>)
    ensures states == PlayedStates(states0, Streams(input, chain, models, stream), chain)
    ensures results == Candidates(Streams(input, chain, models, stream), models)
  {
    states, results := states0, [];
    ghost var runs := Streams(input, chain, models, stream);
    for i := 0 to |models|
      invariant Progress(states, results, states0, runs, models, chain, i)
    {
      states, results := PlayNext(states, results, states0, runs, input, chain, models, i, stream);
    }
    Finished(states, results, states0, runs, models, chain);
  }

  /** One turn of the loop of `handleStart`: model `i` is played after the first `i`. */
  method PlayNext(states: map<string, ModelStreamState>, results: seq<Candidate>, ghost states0: map<string, ModelStreamState>,
                  ghost runs: seq<seq<StreamUpdate>>, input: string, chain: seq<string>, models: seq<Actions.ModelInfo>,
                  i: nat, stream: StreamCall -> StreamReply)
    returns (after: map<string, ModelStreamState>, results': seq<Candidate>)
    requires i < |models| && runs == Streams(input, chain, models, stream)
    requires Progress(states, results, states0, runs, models, chain, i)
    ensures Progress(after, results', states0, runs, models, chain, i + 1)
  {
    var candidate;
    after, candidate := PlayModel(states, input, chain, models, i, stream);
    Advance(states, results, states0, runs, models, chain, i, after, candidate);
    results' := results + [candidate];
  }

  /**
   * The work `handleStart` does for one model: run its stream on the server
   * chain, merge every update into the shown state, and keep the last
   * similarity the stream carried.
   */
  method PlayModel(states: map<string, ModelStreamState>, input: string, chain: seq<string>, models: seq<Actions.ModelInfo>,
                   i: nat, stream: StreamCall -> StreamReply)
    returns (after: map<string, ModelStreamState>, candidate: Candidate)
    requires i < |models|
    ensures var run := Streams(input, chain, models, stream)[i];
      && after == MergeAll(states, run, RunRows(run, chain))
      && candidate == Candidate(models[i].name, LastSimilarity(run, 0.0))
  {
    StreamsAt(input, chain, models, stream, i);
    var model := models[i];
    var updates := RunTelephoneGameStreaming(input, model.name, model.modelId, ServerChain(chain), stream);
    var finalSimilarity;
    after, finalSimilarity := ConsumeStream(states, updates, RunRows(updates, chain));
    candidate := Candidate(model.name, finalSimilarity);
  }

  /** After `i` models: the shown state and the candidates are those of the first `i` streams. */
  ghost predicate Progress(states: map<string, ModelStreamState>, results: seq<Candidate>, states0: map<string, ModelStreamState>,
                           runs: seq<seq<StreamUpdate>>, models: seq<Actions.ModelInfo>, chain: seq<string>, i: nat)
    requires |runs| == |models| && i <= |models|
  {
    && states == PlayedStates(states0, runs[..i], chain)
    && results == Candidates(runs[..i], models[..i])
  }

  /** After every model: the shown state and the candidates are those of all the streams. */
  lemma Finished(states: map<string, ModelStreamState>, results: seq<Candidate>, states0: map<string, ModelStreamState>,
                 runs: seq<seq<StreamUpdate>>, models: seq<Actions.ModelInfo>, chain: seq<string>)
    requires |runs| == |models| && Progress(states, results, states0, runs, models, chain, |models|)
    ensures states == PlayedStates(states0, runs, chain) && results == Candidates(runs, models)
  {
    assert runs[..|models|] == runs && models[..|models|] == models;
  }

  /** One more stream: merged after the others, its candidate appended. */
  lemma Advance(states: map<string, ModelStreamState>, results: seq<Candidate>, states0: map<string, ModelStreamState>,
                runs: seq<seq<StreamUpdate>>, models: seq<Actions.ModelInfo>, chain: seq<string>, i: nat,
                after: map<string, ModelStreamState>, candidate: Candidate)
    requires |runs| == |models| && i < |models|
    requires Progress(states, results, states0, runs, models, chain, i)
    requires after == MergeAll(states, runs[i], RunRows(runs[i], chain))
    requires candidate == Candidate(models[i].name, LastSimilarity(runs[i], 0.0))
    ensures Progress(after, results + [candidate], states0, runs, models, chain, i + 1)
  {
    assert runs[..i + 1][..i] == runs[..i] && models[..i + 1][..i] == models[..i];
  }

  /** A run's last similarity is the similarity of its final text to the input, in [0, 1]. */
  lemma RunSimilarity(input: string, chain: seq<string>, model: Actions.ModelInfo, stream: StreamCall -> StreamReply)
    ensures var finalText := TextAfter(input, model.modelId, stream, ServerChain(chain));
      && LastSimilarity(RunUpdates(input, chain, model, stream), 0.0) == Similarity(input, finalText)
      && 0.0 <= Similarity(input, finalText) <= 1.0
  {
    ConsumedSimilarity(input, model.name, model.modelId, stream, ServerChain(chain));
  }

  /** Model `k`'s candidate is its name and the last similarity of its own stream. */
  lemma {:induction false} CandidateAt(runs: seq<seq<StreamUpdate>>, models: seq<Actions.ModelInfo>, k: nat)
    requires |runs| == |models| && k < |models|
    ensures Candidates(runs, models)[k] == Candidate(models[k].name, LastSimilarity(runs[k], 0.0))
    decreases |models|
  {
    var n := |models| - 1;
    if k < n {
      CandidateAt(runs[..n], models[..n], k);
      assert runs[..n][k] == runs[k] && models[..n][k] == models[k];
    }
  }

  /** Every model's candidate carries the similarity of its final text to the input, in [0, 1]. */
  lemma CandidatesScored(input: string, chain: seq<string>, models: seq<Actions.ModelInfo>, stream: StreamCall -> StreamReply)
    ensures var cs := Candidates(Streams(input, chain, models, stream), models);
      forall k :: 0 <= k < |models| ==>
        var finalText := TextAfter(input, models[k].modelId, stream, ServerChain(chain));
        && cs[k].modelName == models[k].name
        && cs[k].similarity == Similarity(input, finalText)
        && 0.0 <= cs[k].similarity <= 1.0
  {
    var runs := Streams(input, chain, models, stream);
    var cs := Candidates(runs, models);
    forall k | 0 <= k < |models|
      ensures var finalText := TextAfter(input, models[k].modelId, stream, ServerChain(chain));
        && cs[k].modelName == models[k].name
        && cs[k].similarity == Similarity(input, finalText)
        && 0.0 <= cs[k].similarity <= 1.0
    {
      CandidateAt(runs, models, k);
      StreamsAt(input, chain, models, stream, k);
      RunSimilarity(input, chain, models[k], stream);
    }
  }

  /**
   * A game with at least one model has a winner; every winner is within `Eps`
   * of the best similarity, which no model exceeds, and every other model is
   * at least `Eps` below it.
   */
  lemma GameHasWinners(input: string, chain: seq<string>, models: seq<Actions.ModelInfo>, stream: StreamCall -> StreamReply)
    requires |models| > 0
    ensures var cs := Candidates(Streams(input, chain, models, stream), models);
      && |WinningModels(cs, Best(cs))| > 0
      && (forall w :: w in WinningModels(cs, Best(cs)) ==> w in cs && Close(w, Best(cs)))
      && (forall i :: 0 <= i < |cs| ==> cs[i].similarity <= Best(cs))
      && (forall i :: 0 <= i < |cs| && !Close(cs[i], Best(cs)) ==> cs[i].similarity <= Best(cs) - Eps)
  {
    var cs := Candidates(Streams(input, chain, models, stream), models);
    CandidatesScored(input, chain, models, stream);
    WinnersNonEmpty(cs);
    WinningModelsMembers(cs, Best(cs));
    BestIsMaximum(cs);
    ExcludedBelowBest(cs);
  }

  /** Merging a list of updates ends with its last update's merge. */
  lemma MergeAllLast(states: map<string, ModelStreamState>, updates: seq<StreamUpdate>, rows: seq<int>)
    requires |rows| == |updates| > 0
    ensures var last := updates[|updates| - 1];
      var after := MergeAll(states, updates, rows);
      && last.modelName in after
      && after[last.modelName].isProcessing == !last.isComplete
      && after[last.modelName].similarity == last.similarity
      && Row(rows[|updates| - 1]) in after[last.modelName].steps
      && after[last.modelName].steps[Row(rows[|updates| - 1])] == last.text
  {
    var n := |updates| - 1;
    MergeUpdateFrame(MergeAll(states, updates[..n], rows[..n]), updates[n], rows[n]);
  }

  /**
   * The entry of `name` shows a finished run: it is no longer processing, it
   * shows `score`, and its last row, "English (Final)", holds `finalText`.
   */
  ghost predicate Shows(states: map<string, ModelStreamState>, name: string, chain: seq<string>, finalText: string, score: real)
  {
    && name in states
    && !states[name].isProcessing
    && states[name].similarity == Some(score)
    && Row(|chain| + 1) in states[name].steps
    && states[name].steps[Row(|chain| + 1)] == finalText
  }

  /** Once a model's stream is consumed its entry shows the run finished, with the score of its final text. */
  lemma RunFinishes(states: map<string, ModelStreamState>, input: string, chain: seq<string>,
                    model: Actions.ModelInfo, stream: StreamCall -> StreamReply)
    ensures var u := RunUpdates(input, chain, model, stream);
      var finalText := TextAfter(input, model.modelId, stream, ServerChain(chain));
      Shows(MergeAll(states, u, RunRows(u, chain)), model.name, chain, finalText, Similarity(input, finalText))
  {
    var u := RunUpdates(input, chain, model, stream);
    StreamingShape(input, model.name, model.modelId, stream, ServerChain(chain));
    UpdatesLandInTheirRows(input, model.name, model.modelId, stream, chain);
    MergeAllLast(states, u, RunRows(u, chain));
  }

  /** Merging updates of other models leaves the entry of `name` as it was, present or not. */
  lemma {:induction false} MergeAllOthers(states: map<string, ModelStreamState>, updates: seq<StreamUpdate>, rows: seq<int>,
                                          name: string)
    requires |rows| == |updates|
    requires forall p :: 0 <= p < |updates| ==> updates[p].modelName != name
    ensures name in MergeAll(states, updates, rows) <==> name in states
    ensures name in states ==> MergeAll(states, updates, rows)[name] == states[name]
    decreases |updates|
  {
    if |updates| > 0 {
      var n := |updates| - 1;
      assert forall p :: 0 <= p < n ==> updates[..n][p] == updates[p];
      MergeAllOthers(states, updates[..n], rows[..n], name);
    }
  }

  /** Every update of stream `j` names model `j`. */
  ghost predicate Named(runs: seq<seq<StreamUpdate>>, models: seq<Actions.ModelInfo>)
  {
    |runs| == |models| && forall j, p :: 0 <= j < |runs| && 0 <= p < |runs[j]| ==> runs[j][p].modelName == models[j].name
  }

  lemma StreamsNamed(input: string, chain: seq<string>, models: seq<Actions.ModelInfo>, stream: StreamCall -> StreamReply)
    ensures Named(Streams(input, chain, models, stream), models)
  {
    var runs: seq<seq<StreamUpdate>> := Streams(input, chain, models, stream);
    forall j | 0 <= j < |runs| ensures forall p :: 0 <= p < |runs[j]| ==> runs[j][p].modelName == models[j].name {
      StreamsAt(input, chain, models, stream, j);
      StreamingShape(input, models[j].name, models[j].modelId, stream, ServerChain(chain));
    }
  }

  /** No two models share a name. */
  ghost predicate DistinctNames(models: seq<Actions.ModelInfo>)
  {
    forall i, j :: 0 <= i < j < |models| ==> models[i].name != models[j].name
  }

  /** The streams after the `k`-th leave the entry that the first `k + 1` streams left for model `k`. */
  lemma {:induction false} PlayedKeeps(states: map<string, ModelStreamState>, runs: seq<seq<StreamUpdate>>,
                                       models: seq<Actions.ModelInfo>, chain: seq<string>, k: nat)
    requires k < |runs| && Named(runs, models) && DistinctNames(models)
    requires models[k].name in PlayedStates(states, runs[..k + 1], chain)
    ensures models[k].name in PlayedStates(states, runs, chain)
    ensures PlayedStates(states, runs, chain)[models[k].name] == PlayedStates(states, runs[..k + 1], chain)[models[k].name]
    decreases |runs|
  {
    var n := |runs| - 1;
    if k == n {
      assert runs[..k + 1] == runs;
    } else {
      var front, frontModels := runs[..n], models[..n];
      assert front[..k + 1] == runs[..k + 1];
      assert Named(front, frontModels) && DistinctNames(frontModels) by {
        assert forall j :: 0 <= j < n ==> front[j] == runs[j] && frontModels[j] == models[j];
      }
      PlayedKeeps(states, front, frontModels, chain, k);
      assert forall p :: 0 <= p < |runs[n]| ==> runs[n][p].modelName == models[n].name;
      MergeAllOthers(PlayedStates(states, front, chain), runs[n], RunRows(runs[n], chain), models[k].name);
    }
  }

  /** What stream `k` left for model `k` is still shown after all the streams. */
  lemma FinishStays(states: map<string, ModelStreamState>, runs: seq<seq<StreamUpdate>>, models: seq<Actions.ModelInfo>,
                    chain: seq<string>, k: nat, finalText: string, score: real)
    requires k < |runs| && Named(runs, models) && DistinctNames(models)
    requires Shows(MergeAll(PlayedStates(states, runs[..k], chain), runs[k], RunRows(runs[k], chain)),
                   models[k].name, chain, finalText, score)
    ensures Shows(PlayedStates(states, runs, chain), models[k].name, chain, finalText, score)
  {
    assert runs[..k + 1][..k] == runs[..k];
    PlayedKeeps(states, runs, models, chain, k);
  }

  /**
   * Once the game is played, every model's entry is no longer processing,
   * shows the score of its own final text, and its last row, "English
   * (Final)", holds that text: the streams of the other models leave it alone.
   */
  lemma PlayedShowsEveryFinish(input: string, chain: seq<string>, models: seq<Actions.ModelInfo>, stream: StreamCall -> StreamReply,
                               k: nat)
    requires k < |models| && DistinctNames(models)
    ensures var finalText := TextAfter(input, models[k].modelId, stream, ServerChain(chain));
      Shows(PlayedStates(InitialStates(models, input), Streams(input, chain, models, stream), chain),
            models[k].name, chain, finalText, Similarity(input, finalText))
  {
    var states0 := InitialStates(models, input);
    var runs := Streams(input, chain, models, stream);
    StreamsAt(input, chain, models, stream, k);
    RunFinishes(PlayedStates(states0, runs[..k], chain), input, chain, models[k], stream);
    StreamsNamed(input, chain, models, stream);
    var finalText := TextAfter(input, models[k].modelId, stream, ServerChain(chain));
    FinishStays(states0, runs, models, chain, k, finalText, Similarity(input, finalText));
  }

  /** `PlayedShowsEveryFinish` for all the models at once. */
  lemma PlayedShowsAll(input: string, chain: seq<string>, models: seq<Actions.ModelInfo>, stream: StreamCall -> StreamReply)
    requires DistinctNames(models)
    ensures forall k :: 0 <= k < |models| ==>
      var finalText := TextAfter(input, models[k].modelId, stream, ServerChain(chain));
      Shows(PlayedStates(InitialStates(models, input), Streams(input, chain, models, stream), chain),
            models[k].name, chain, finalText, Similarity(input, finalText))
  {
    forall k | 0 <= k < |models|
      ensures var finalText := TextAfter(input, models[k].modelId, stream, ServerChain(chain));
        Shows(PlayedStates(InitialStates(models, input), Streams(input, chain, models, stream), chain),
              models[k].name, chain, finalText, Similarity(input, finalText))
    {
      PlayedShowsEveryFinish(input, chain, models, stream, k);
    }
  }

  /** The configured models have distinct names, so each has its own entry in the shown state. */
  lemma CompetingModelsDistinct()
    ensures DistinctNames(Actions.CompetingModels)
  {
    var models := Actions.CompetingModels;
    assert models[0].name[0] != models[1].name[0];
  }

  // ---------------------------------------------------------------------------
  // Interleaved streams
  // ---------------------------------------------------------------------------

  /** The updates of `us` that name model `name`, each with its row, in their order. */
  function Own(us: seq<StreamUpdate>, rows: seq<int>, name: string): seq<(StreamUpdate, int)>
    requires |rows| == |us|
    decreases |us|
  {
    if |us| == 0 then []
    else
      var n := |us| - 1;
      Own(us[..n], rows[..n], name) + (if us[n].modelName == name then [(us[n], rows[n])] else [])
  }

  /** The updates of one list paired with their rows. */
  function Pairs(us: seq<StreamUpdate>, rows: seq<int>): (ps: seq<(StreamUpdate, int)>)
    requires |rows| == |us|
    ensures |ps| == |us| && forall p :: 0 <= p < |us| ==> ps[p] == (us[p], rows[p])
  {
    seq(|us|, p requires 0 <= p < |us| => (us[p], rows[p]))
  }

  /** The entry of a model in a state, if there is one. */
  function Lookup(states: map<string, ModelStreamState>, name: string): Option<ModelStreamState>
  {
    if name in states then Some(states[name]) else None
  }

  /** One model's entry after its own updates have been merged into it, each under its row. */
  function EntryAfter(entry: Option<ModelStreamState>, own: seq<(StreamUpdate, int)>): Option<ModelStreamState>
    decreases |own|
  {
    if |own| == 0 then entry
    else
      var n := |own| - 1;
      var before := EntryAfter(entry, own[..n]);
      var steps := if before.Some? then before.value.steps else map[];
      Some(ModelStreamState(own[n].0.modelName, steps[Row(own[n].1) := own[n].0.text], !own[n].0.isComplete, own[n].0.similarity))
  }

  /** A model's entry after a list of merges depends only on that model's own updates, in their order. */
  lemma {:induction false} MergeAllEntry(states: map<string, ModelStreamState>, us: seq<StreamUpdate>, rows: seq<int>,
                                         name: string)
    requires |rows| == |us|
    ensures Lookup(MergeAll(states, us, rows), name) == EntryAfter(Lookup(states, name), Own(us, rows, name))
    decreases |us|
  {
    if |us| > 0 {
      var n := |us| - 1;
      MergeAllEntry(states, us[..n], rows[..n], name);
      var m := MergeAll(states, us[..n], rows[..n]);
      var own := Own(us, rows, name);
      var own' := Own(us[..n], rows[..n], name);
      if us[n].modelName == name {
        assert own == own' + [(us[n], rows[n])];
        assert own[..|own| - 1] == own';
        assert PreviousSteps(m, name) == if Lookup(m, name).Some? then Lookup(m, name).value.steps else map[];
      } else {
        assert own == own';
        assert Lookup(MergeAll(states, us, rows), name) == Lookup(m, name);
      }
    }
  }

  /** Two states that agree on every model's entry are the same state. */
  lemma SameEntries(a: map<string, ModelStreamState>, b: map<string, ModelStreamState>)
    requires forall name :: Lookup(a, name) == Lookup(b, name)
    ensures a == b
  {
    assert a.Keys == b.Keys by {
      forall name ensures name in a <==> name in b {
        assert Lookup(a, name) == Lookup(b, name);
      }
    }
    forall name | name in a ensures a[name] == b[name] {
      assert Lookup(a, name) == Lookup(b, name);
    }
  }

  /** Two lists of merges that give every model the same own updates, in the same order, give the same state. */
  lemma SameOwnSameMerge(states: map<string, ModelStreamState>, us: seq<StreamUpdate>, ru: seq<int>,
                         vs: seq<StreamUpdate>, rv: seq<int>)
    requires |ru| == |us| && |rv| == |vs|
    requires forall name :: Own(us, ru, name) == Own(vs, rv, name)
    ensures MergeAll(states, us, ru) == MergeAll(states, vs, rv)
  {
    forall name ensures Lookup(MergeAll(states, us, ru), name) == Lookup(MergeAll(states, vs, rv), name) {
      MergeAllEntry(states, us, ru, name);
      MergeAllEntry(states, vs, rv, name);
    }
    SameEntries(MergeAll(states, us, ru), MergeAll(states, vs, rv));
  }

  /** One unfolding of `MergeAll`, for a non-empty list. */
  lemma MergeAllUnfold(states: map<string, ModelStreamState>, us: seq<StreamUpdate>, rows: seq<int>)
    requires |rows| == |us| > 0
    ensures MergeAll(states, us, rows)
            == MergeUpdate(MergeAll(states, us[..|us| - 1], rows[..|us| - 1]), us[|us| - 1], rows[|us| - 1])
  {
  }

  /** Merging two lists in a row is merging their concatenation. */
  lemma {:induction false} MergeAllAppend(states: map<string, ModelStreamState>, a: seq<StreamUpdate>, ra: seq<int>,
                                          b: seq<StreamUpdate>, rb: seq<int>)
    requires |ra| == |a| && |rb| == |b|
    ensures MergeAll(states, a + b, ra + rb) == MergeAll(MergeAll(states, a, ra), b, rb)
    decreases |b|
  {
    if |b| == 0 {
      assert a + b == a && ra + rb == ra;
    } else {
      var n := |b| - 1;
      var ab, rab := a + b, ra + rb;
      assert ab[..|ab| - 1] == a + b[..n] && ab[|ab| - 1] == b[n];
      assert rab[..|rab| - 1] == ra + rb[..n] && rab[|rab| - 1] == rb[n];
      MergeAllUnfold(states, ab, rab);
      MergeAllAppend(states, a, ra, b[..n], rb[..n]);
      MergeAllUnfold(MergeAll(states, a, ra), b, rb);
    }
  }

  /** The own updates of a concatenation are those of each list, in order. */
  lemma {:induction false} OwnAppend(a: seq<StreamUpdate>, ra: seq<int>, b: seq<StreamUpdate>, rb: seq<int>, name: string)
    requires |ra| == |a| && |rb| == |b|
    ensures Own(a + b, ra + rb, name) == Own(a, ra, name) + Own(b, rb, name)
    decreases |b|
  {
    if |b| == 0 {
      assert a + b == a && ra + rb == ra;
    } else {
      var n := |b| - 1;
      OwnAppend(a, ra, b[..n], rb[..n], name);
      assert (a + b)[..|a| + n] == a + b[..n];
      assert (ra + rb)[..|ra| + n] == ra + rb[..n];
    }
  }

  /** A list of updates that all name `name` is its own updates, each with its row. */
  lemma {:induction false} OwnAll(us: seq<StreamUpdate>, rows: seq<int>, name: string)
    requires |rows| == |us|
    requires forall p :: 0 <= p < |us| ==> us[p].modelName == name
    ensures Own(us, rows, name) == Pairs(us, rows)
    decreases |us|
  {
    if |us| > 0 {
      var n := |us| - 1;
      OwnAll(us[..n], rows[..n], name);
      assert Pairs(us, rows) == Pairs(us[..n], rows[..n]) + [(us[n], rows[n])];
    }
  }

  /** A list of updates that never names `name` has no own updates for it. */
  lemma {:induction false} OwnNone(us: seq<StreamUpdate>, rows: seq<int>, name: string)
    requires |rows| == |us|
    requires forall p :: 0 <= p < |us| ==> us[p].modelName != name
    ensures Own(us, rows, name) == []
    decreases |us|
  {
    if |us| > 0 {
      OwnNone(us[..|us| - 1], rows[..|us| - 1], name);
    }
  }

  /** The streams one after the other, as `PlayedStates` merges them. */
  function Flat(runs: seq<seq<StreamUpdate>>): seq<StreamUpdate>
    decreases |runs|
  {
    if |runs| == 0 then [] else Flat(runs[..|runs| - 1]) + runs[|runs| - 1]
  }

  /** The rows of `Flat(runs)`: each stream's own `RunRows`. */
  function FlatRows(runs: seq<seq<StreamUpdate>>, chain: seq<string>): (rows: seq<int>)
    ensures |rows| == |Flat(runs)|
    decreases |runs|
  {
    if |runs| == 0 then [] else FlatRows(runs[..|runs| - 1], chain) + RunRows(runs[|runs| - 1], chain)
  }

  /** `PlayedStates` is one list of merges: the streams one after the other. */
  lemma {:induction false} PlayedIsFlatMerge(states: map<string, ModelStreamState>, runs: seq<seq<StreamUpdate>>,
                                             chain: seq<string>)
    ensures PlayedStates(states, runs, chain) == MergeAll(states, Flat(runs), FlatRows(runs, chain))
    decreases |runs|
  {
    if |runs| > 0 {
      var n := |runs| - 1;
      PlayedIsFlatMerge(states, runs[..n], chain);
      MergeAllAppend(states, Flat(runs[..n]), FlatRows(runs[..n], chain), runs[n], RunRows(runs[n], chain));
    }
  }

  /** In the streams one after the other, model `k`'s own updates are its stream, each in its row. */
  lemma {:induction false} FlatOwn(runs: seq<seq<StreamUpdate>>, models: seq<Actions.ModelInfo>, chain: seq<string>, k: nat)
    requires k < |runs| && Named(runs, models) && DistinctNames(models)
    ensures Own(Flat(runs), FlatRows(runs, chain), models[k].name) == Pairs(runs[k], RunRows(runs[k], chain))
    decreases |runs|
  {
    var n := |runs| - 1;
    var front, frontModels := runs[..n], models[..n];
    var name := models[k].name;
    OwnAppend(Flat(front), FlatRows(front, chain), runs[n], RunRows(runs[n], chain), name);
    if k == n {
      FlatNone(front, frontModels, chain, name);
      OwnAll(runs[n], RunRows(runs[n], chain), name);
    } else {
      assert Named(front, frontModels) && DistinctNames(frontModels) by {
        assert forall j :: 0 <= j < n ==> front[j] == runs[j] && frontModels[j] == models[j];
      }
      FlatOwn(front, frontModels, chain, k);
      assert models[n].name != name;
      OwnNone(runs[n], RunRows(runs[n], chain), name);
    }
  }

  /** A name that no model of the streams has gets no own updates from them. */
  lemma {:induction false} FlatNone(runs: seq<seq<StreamUpdate>>, models: seq<Actions.ModelInfo>, chain: seq<string>,
                                    name: string)
    requires Named(runs, models) && forall j :: 0 <= j < |models| ==> models[j].name != name
    ensures Own(Flat(runs), FlatRows(runs, chain), name) == []
    decreases |runs|
  {
    if |runs| > 0 {
      var n := |runs| - 1;
      var front, frontModels := runs[..n], models[..n];
      assert Named(front, frontModels) by {
        assert forall j :: 0 <= j < n ==> front[j] == runs[j] && frontModels[j] == models[j];
      }
      FlatNone(front, frontModels, chain, name);
      OwnAppend(Flat(front), FlatRows(front, chain), runs[n], RunRows(runs[n], chain), name);
      OwnNone(runs[n], RunRows(runs[n], chain), name);
    }
  }

  /**
   * The parallel streams of `handleStart` may reach the page interleaved in
   * any way. Whatever the interleaving `us` (with the rows `ru`), as long as
   * every update comes from a configured model and each model's updates
   * arrive in their own order and rows, the shown state is the one of merging
   * the streams one after the other.
   */
  lemma InterleavedStreams(states: map<string, ModelStreamState>, runs: seq<seq<StreamUpdate>>,
                           models: seq<Actions.ModelInfo>, chain: seq<string>, us: seq<StreamUpdate>, ru: seq<int>)
    requires Named(runs, models) && DistinctNames(models) && |ru| == |us|
    requires forall p :: 0 <= p < |us| ==> us[p].modelName in Names(models)
    requires forall k :: 0 <= k < |models| ==> Own(us, ru, models[k].name) == Pairs(runs[k], RunRows(runs[k], chain))
    ensures MergeAll(states, us, ru) == PlayedStates(states, runs, chain)
  {
    var flat, flatRows := Flat(runs), FlatRows(runs, chain);
    forall name ensures Own(us, ru, name) == Own(flat, flatRows, name) {
      if k :| 0 <= k < |models| && models[k].name == name {
        FlatOwn(runs, models, chain, k);
      } else {
        FlatNone(runs, models, chain, name);
        OwnNone(us, ru, name);
      }
    }
    SameOwnSameMerge(states, us, ru, flat, flatRows);
    PlayedIsFlatMerge(states, runs, chain);
  }
}
