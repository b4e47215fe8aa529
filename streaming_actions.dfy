/**
 * The streaming server action (`streaming-actions.ts`): one model translates
 * the phrase through a caller-given chain, emitting a partial update for every
 * chunk of text it receives, a completion update per step, and a final scored
 * update. A failed step emits the error sentinel and the chain goes on from
 * the last good text.
 */
module StreamingActions {
  import opened Wrappers
  import opened Translation
  import opened Scorer

  /** One value yielded by the generator; only the final one carries a similarity. */
  datatype StreamUpdate = StreamUpdate(modelName: string, language: string, text: string,
                                       isComplete: bool, similarity: Option<real>)

  /**
   * What one `streamText` call delivers: all the chunks of the translation, or
   * the chunks that arrived before the stream (or the call itself) threw.
   */
  datatype StreamReply = Streamed(chunks: seq<string>) | Broken(chunks: seq<string>)

  /**
   * One `streamText` call: the index of the step that makes it, and the
   * request. Every step makes a fresh call, so two steps that send the same
   * request may still get different replies.
   */
  datatype StreamCall = StreamCall(step: nat, request: Request)

  /** `fullText` after the chunks have been appended one by one. */
  function Concat(chunks: seq<string>): string
    decreases |chunks|
  {
    if |chunks| == 0 then "" else Concat(chunks[..|chunks| - 1]) + chunks[|chunks| - 1]
  }

  /** The partial updates of one step: one per chunk, carrying the text so far. */
  function Partials(modelName: string, lang: string, chunks: seq<string>): seq<StreamUpdate>
    decreases |chunks|
  {
    if |chunks| == 0 then []
    else Partials(modelName, lang, chunks[..|chunks| - 1]) + [StreamUpdate(modelName, lang, Concat(chunks), false, None)]
  }

  /** The completion update of one step: the whole text, or the sentinel when the stream threw. */
  function Completion(modelName: string, lang: string, reply: StreamReply): StreamUpdate
  {
    StreamUpdate(modelName, lang, if reply.Streamed? then Concat(reply.chunks) else Sentinel(lang), true, None)
  }

  /** Everything one step yields. */
  function StepUpdates(modelName: string, lang: string, reply: StreamReply): seq<StreamUpdate>
  {
    Partials(modelName, lang, reply.chunks) + [Completion(modelName, lang, reply)]
  }

  /** `currentText` after a step: the streamed text, or unchanged when the step failed. */
  function NextText(currentText: string, reply: StreamReply): string
  {
    if reply.Streamed? then Concat(reply.chunks) else currentText
  }

  /** `currentText` once the steps of `chain` have run. */
  function TextAfter(initialPhrase: string, modelId: string, stream: StreamCall -> StreamReply,
                     chain: seq<ChainEntry>): string
    decreases |chain|
  {
    if |chain| == 0 then initialPhrase
    else
      var previous := TextAfter(initialPhrase, modelId, stream, chain[..|chain| - 1]);
      NextText(previous, stream(StreamCall(|chain| - 1, Request(modelId, chain[|chain| - 1].lang, previous))))
  }

  /** What the stream delivers for step `k`, prompted with the text left by the steps before it. */
  function ReplyAt(initialPhrase: string, modelId: string, stream: StreamCall -> StreamReply,
                   chain: seq<ChainEntry>, k: nat): StreamReply
    requires k < |chain|
  {
    stream(StreamCall(k, Request(modelId, chain[k].lang, TextAfter(initialPhrase, modelId, stream, chain[..k]))))
  }

  /** Everything the steps of `chain` yield, in order. */
  function ChainUpdates(initialPhrase: string, modelName: string, modelId: string, stream: StreamCall -> StreamReply,
                        chain: seq<ChainEntry>): (cu: seq<StreamUpdate>)
    ensures |cu| >= |chain|
    decreases |chain|
  {
    if |chain| == 0 then []
    else
      var front := chain[..|chain| - 1];
      var lang := chain[|chain| - 1].lang;
      ChainUpdates(initialPhrase, modelName, modelId, stream, front)
        + StepUpdates(modelName, lang, stream(StreamCall(|chain| - 1, Request(modelId, lang, TextAfter(initialPhrase, modelId, stream, front)))))
  }

  /** The final update: always labelled English, scored against the original phrase. */
  function FinalUpdate(initialPhrase: string, modelName: string, finalText: string): StreamUpdate
  {
    StreamUpdate(modelName, "English", finalText, true, Some(Similarity(initialPhrase, finalText)))
  }

  /** Everything `runTelephoneGameStreaming(initialPhrase, modelName, modelId, chain)` yields, in order. */
  function StreamingUpdates(initialPhrase: string, modelName: string, modelId: string, stream: StreamCall -> StreamReply,
                            chain: seq<ChainEntry>): (u: seq<StreamUpdate>)
    ensures |u| >= |chain| + 2
    ensures u[0] == StreamUpdate(modelName, "Original", initialPhrase, false, None)
  {
    [StreamUpdate(modelName, "Original", initialPhrase, false, None)]
      + ChainUpdates(initialPhrase, modelName, modelId, stream, chain)
      + [FinalUpdate(initialPhrase, modelName, TextAfter(initialPhrase, modelId, stream, chain))]
  }

  /** The `for await` loop of one step: append each chunk and yield the text so far. */
  method StreamChunks(modelName: string, lang: string, chunks: seq<string>) returns (fullText: string, partials: seq<StreamUpdate>)
    ensures fullText == Concat(chunks)
    ensures partials == Partials(modelName, lang, chunks)
  {
    fullText := "";
    partials := [];
    for i := 0 to |chunks|
      invariant fullText == Concat(chunks[..i])
      invariant partials == Partials(modelName, lang, chunks[..i])
    {
      assert chunks[..i + 1][..i] == chunks[..i];
      fullText := fullText + chunks[i];
      partials := partials + [StreamUpdate(modelName, lang, fullText, false, None)];
    }
    assert chunks[..|chunks|] == chunks;
  }

  /** Concatenation of update lists associates. */
  lemma AppendAssociates<T>(a: seq<T>, b: seq<T>, c: seq<T>)
    ensures (a + b) + c == a + (b + c)
  {
  }

  /** Running one more step of the chain: its updates are appended and it hands on its text. */
  lemma ChainStep(initialPhrase: string, modelName: string, modelId: string, stream: StreamCall -> StreamReply,
                  chain: seq<ChainEntry>, k: nat)
    requires k < |chain|
    ensures var previous := TextAfter(initialPhrase, modelId, stream, chain[..k]);
      var reply := stream(StreamCall(k, Request(modelId, chain[k].lang, previous)));
      && TextAfter(initialPhrase, modelId, stream, chain[..k + 1]) == NextText(previous, reply)
      && ChainUpdates(initialPhrase, modelName, modelId, stream, chain[..k + 1])
         == ChainUpdates(initialPhrase, modelName, modelId, stream, chain[..k]) + StepUpdates(modelName, chain[k].lang, reply)
  {
    assert chain[..k + 1][..k] == chain[..k];
  }

  /**
   * The body of the `for (const step of chain)` loop, for step `k`: stream the
   * translation of `currentText`, yield the partial updates, then the completion; a
   * stream that throws leaves `currentText` as it was and yields the sentinel.
   */
  method RunStep(modelName: string, modelId: string, k: nat, lang: string, currentText: string, stream: StreamCall -> StreamReply)
    returns (nextText: string, stepUpdates: seq<StreamUpdate>)
    ensures var reply := stream(StreamCall(k, Request(modelId, lang, currentText)));
      nextText == NextText(currentText, reply) && stepUpdates == StepUpdates(modelName, lang, reply)
  {
    var reply := stream(StreamCall(k, Request(modelId, lang, currentText)));
    var fullText, partials := StreamChunks(modelName, lang, reply.chunks);
    match reply
    case Streamed(_) =>
      nextText := fullText;
      stepUpdates := partials + [StreamUpdate(modelName, lang, fullText, true, None)];
    case Broken(_) =>
      nextText := currentText;
      stepUpdates := partials + [StreamUpdate(modelName, lang, Sentinel(lang), true, None)];
  }

  /**
   * `runTelephoneGameStreaming`: the generator, with everything it yields
   * collected in order.
   */
  method RunTelephoneGameStreaming(initialPhrase: string, modelName: string, modelId: string,
                                   chain: seq<ChainEntry>, stream: StreamCall -> StreamReply)
    returns (updates: seq<StreamUpdate>)
    ensures updates == StreamingUpdates(initialPhrase, modelName, modelId, stream, chain)
  {
    var currentText := initialPhrase;
    ghost var original := StreamUpdate(modelName, "Original", initialPhrase, false, None);
    updates := [StreamUpdate(modelName, "Original", currentText, false, None)];
    for k := 0 to |chain|
      invariant currentText == TextAfter(initialPhrase, modelId, stream, chain[..k])
      invariant updates == [original] + ChainUpdates(initialPhrase, modelName, modelId, stream, chain[..k])
    {
      ChainStep(initialPhrase, modelName, modelId, stream, chain, k);
      var stepUpdates;
      currentText, stepUpdates := RunStep(modelName, modelId, k, chain[k].lang, currentText, stream);
      AppendAssociates([original], ChainUpdates(initialPhrase, modelName, modelId, stream, chain[..k]), stepUpdates);
      updates := updates + stepUpdates;
    }
    assert chain[..|chain|] == chain;
    var similarity := CalculateSimilarity(initialPhrase, currentText);
    updates := updates + [StreamUpdate(modelName, "English", currentText, true, Some(similarity))];
  }

  // ---------------------------------------------------------------------------
  // One step
  // ---------------------------------------------------------------------------

  /** The text after `i` chunks is a prefix of the text after all of them. */
  lemma {:induction false} ConcatPrefix(chunks: seq<string>, i: nat)
    requires i <= |chunks|
    ensures Concat(chunks[..i]) <= Concat(chunks)
    decreases |chunks| - i
  {
    if i < |chunks| {
      var front := chunks[..|chunks| - 1];
      assert front[..i] == chunks[..i];
      ConcatPrefix(front, i);
      assert chunks[..|chunks|] == chunks;
    } else {
      assert chunks[..i] == chunks;
    }
  }

  /** The `i`-th partial update is incomplete, unscored, and carries the first `i + 1` chunks. */
  lemma {:induction false} PartialsAt(modelName: string, lang: string, chunks: seq<string>)
    ensures |Partials(modelName, lang, chunks)| == |chunks|
    ensures forall i :: 0 <= i < |chunks| ==>
      Partials(modelName, lang, chunks)[i] == StreamUpdate(modelName, lang, Concat(chunks[..i + 1]), false, None)
    decreases |chunks|
  {
    if |chunks| > 0 {
      var front := chunks[..|chunks| - 1];
      PartialsAt(modelName, lang, front);
      forall i | 0 <= i < |chunks|
        ensures Partials(modelName, lang, chunks)[i] == StreamUpdate(modelName, lang, Concat(chunks[..i + 1]), false, None)
      {
        if i < |front| {
          assert front[..i + 1] == chunks[..i + 1];
        } else {
          assert chunks[..i + 1] == chunks;
        }
      }
    }
  }

  /**
   * One step yields a partial update per chunk and then exactly one
   * completion, which carries the whole streamed text, or the sentinel when
   * the stream threw; nothing in a step is scored.
   */
  lemma StepUpdatesShape(modelName: string, lang: string, reply: StreamReply)
    ensures var u := StepUpdates(modelName, lang, reply);
      && |u| == |reply.chunks| + 1
      && (forall i :: 0 <= i < |u| ==> u[i].modelName == modelName && u[i].language == lang && u[i].similarity == None)
      && (forall i :: 0 <= i < |u| ==> (u[i].isComplete <==> i == |reply.chunks|))
      && u[|reply.chunks|].text == (if reply.Streamed? then Concat(reply.chunks) else Sentinel(lang))
  {
    var p := Partials(modelName, lang, reply.chunks);
    PartialsAt(modelName, lang, reply.chunks);
    forall i | 0 <= i < |p| ensures StepUpdates(modelName, lang, reply)[i] == p[i] {
    }
  }

  /**
   * The partial texts of a step only grow, and each is a prefix of the text
   * streamed so far at the end of the step.
   */
  lemma PartialsGrow(modelName: string, lang: string, chunks: seq<string>)
    ensures var p := Partials(modelName, lang, chunks);
      && |p| == |chunks|
      && (forall i :: 0 <= i < |p| ==> p[i].text <= Concat(chunks))
      && (forall i, j :: 0 <= i <= j < |p| ==> p[i].text <= p[j].text)
  {
    var p := Partials(modelName, lang, chunks);
    PartialsAt(modelName, lang, chunks);
    forall i | 0 <= i < |p| ensures p[i].text <= Concat(chunks) {
      ConcatPrefix(chunks, i + 1);
    }
    forall i, j | 0 <= i <= j < |p| ensures p[i].text <= p[j].text {
      assert chunks[..j + 1][..i + 1] == chunks[..i + 1];
      ConcatPrefix(chunks[..j + 1], i + 1);
    }
  }

  /** When a step streams at least one chunk, its completion repeats the text of its last partial update. */
  lemma CompletionRepeatsLastPartial(modelName: string, lang: string, chunks: seq<string>)
    requires |chunks| > 0
    ensures var u := StepUpdates(modelName, lang, Streamed(chunks));
      |u| == |chunks| + 1 && u[|chunks|].text == u[|chunks| - 1].text
  {
    PartialsAt(modelName, lang, chunks);
    assert chunks[..|chunks|] == chunks;
  }

  // ---------------------------------------------------------------------------
  // The whole chain
  // ---------------------------------------------------------------------------

  /** The completion updates among `us`, in order. */
  function Completions(us: seq<StreamUpdate>): seq<StreamUpdate>
    decreases |us|
  {
    if |us| == 0 then []
    else Completions(us[..|us| - 1]) + (if us[|us| - 1].isComplete then [us[|us| - 1]] else [])
  }

  lemma {:induction false} CompletionsAppend(a: seq<StreamUpdate>, b: seq<StreamUpdate>)
    ensures Completions(a + b) == Completions(a) + Completions(b)
    decreases |b|
  {
    if |b| == 0 {
      assert a + b == a;
    } else {
      assert (a + b)[..|a + b| - 1] == a + b[..|b| - 1];
      CompletionsAppend(a, b[..|b| - 1]);
    }
  }

  lemma {:induction false} CompletionsOfPartials(modelName: string, lang: string, chunks: seq<string>)
    ensures Completions(Partials(modelName, lang, chunks)) == []
    decreases |chunks|
  {
    if |chunks| > 0 {
      var p := Partials(modelName, lang, chunks);
      assert p[..|p| - 1] == Partials(modelName, lang, chunks[..|chunks| - 1]);
      CompletionsOfPartials(modelName, lang, chunks[..|chunks| - 1]);
    }
  }

  lemma CompletionsSingle(x: StreamUpdate)
    ensures Completions([x]) == if x.isComplete then [x] else []
  {
    assert [x][..0] == [];
  }

  lemma CompletionsOfStep(modelName: string, lang: string, reply: StreamReply)
    ensures Completions(StepUpdates(modelName, lang, reply)) == [Completion(modelName, lang, reply)]
  {
    CompletionsAppend(Partials(modelName, lang, reply.chunks), [Completion(modelName, lang, reply)]);
    CompletionsOfPartials(modelName, lang, reply.chunks);
    CompletionsSingle(Completion(modelName, lang, reply));
  }

  /** A step's reply does not depend on the steps after it. */
  lemma ReplyAtPrefix(initialPhrase: string, modelId: string, stream: StreamCall -> StreamReply,
                      chain: seq<ChainEntry>, n: nat, k: nat)
    requires k < n <= |chain|
    ensures ReplyAt(initialPhrase, modelId, stream, chain[..n], k) == ReplyAt(initialPhrase, modelId, stream, chain, k)
  {
    assert chain[..n][..k] == chain[..k];
  }

  /** The last step of a chain adds exactly its own completion. */
  lemma CompletionsOfLastStep(initialPhrase: string, modelName: string, modelId: string,
                              stream: StreamCall -> StreamReply, chain: seq<ChainEntry>)
    requires |chain| > 0
    ensures Completions(ChainUpdates(initialPhrase, modelName, modelId, stream, chain))
      == Completions(ChainUpdates(initialPhrase, modelName, modelId, stream, chain[..|chain| - 1]))
         + [Completion(modelName, chain[|chain| - 1].lang, ReplyAt(initialPhrase, modelId, stream, chain, |chain| - 1))]
  {
    var n := |chain| - 1;
    var lang := chain[n].lang;
    var reply := ReplyAt(initialPhrase, modelId, stream, chain, n);
    var before := ChainUpdates(initialPhrase, modelName, modelId, stream, chain[..n]);
    CompletionsAppend(before, StepUpdates(modelName, lang, reply));
    CompletionsOfStep(modelName, lang, reply);
  }

  /** One completion per step of the chain, from what each step streamed. */
  function StepCompletions(initialPhrase: string, modelName: string, modelId: string,
                           stream: StreamCall -> StreamReply, chain: seq<ChainEntry>): (cs: seq<StreamUpdate>)
    ensures |cs| == |chain|
    ensures forall k :: 0 <= k < |chain| ==>
      cs[k] == Completion(modelName, chain[k].lang, ReplyAt(initialPhrase, modelId, stream, chain, k))
  {
    seq(|chain|, k requires 0 <= k < |chain| => Completion(modelName, chain[k].lang, ReplyAt(initialPhrase, modelId, stream, chain, k)))
  }

  /** The steps before the last complete as they do in the chain without it. */
  lemma StepCompletionsFront(initialPhrase: string, modelName: string, modelId: string,
                             stream: StreamCall -> StreamReply, chain: seq<ChainEntry>)
    requires |chain| > 0
    ensures StepCompletions(initialPhrase, modelName, modelId, stream, chain)
      == StepCompletions(initialPhrase, modelName, modelId, stream, chain[..|chain| - 1])
         + [Completion(modelName, chain[|chain| - 1].lang, ReplyAt(initialPhrase, modelId, stream, chain, |chain| - 1))]
  {
    var n := |chain| - 1;
    var front := chain[..n];
    var cs := StepCompletions(initialPhrase, modelName, modelId, stream, chain);
    var fs := StepCompletions(initialPhrase, modelName, modelId, stream, front);
    forall k | 0 <= k < n
      ensures cs[k] == fs[k]
    {
      ReplyAtPrefix(initialPhrase, modelId, stream, chain, n, k);
      assert front[k] == chain[k];
    }
    SnocEqual(cs, fs, cs[n]);
  }

  /** A sequence that agrees with `b` below `|b|` and ends in `x` is `b + [x]`. */
  lemma SnocEqual<T>(a: seq<T>, b: seq<T>, x: T)
    requires |a| == |b| + 1 && a[|b|] == x
    requires forall k :: 0 <= k < |b| ==> a[k] == b[k]
    ensures a == b + [x]
  {
  }

  /** The completions among the chain's updates are exactly one per step, in order. */
  lemma {:induction false} ChainCompletionList(initialPhrase: string, modelName: string, modelId: string,
                                               stream: StreamCall -> StreamReply, chain: seq<ChainEntry>)
    ensures Completions(ChainUpdates(initialPhrase, modelName, modelId, stream, chain))
      == StepCompletions(initialPhrase, modelName, modelId, stream, chain)
    decreases |chain|
  {
    if |chain| > 0 {
      ChainCompletionList(initialPhrase, modelName, modelId, stream, chain[..|chain| - 1]);
      CompletionsOfLastStep(initialPhrase, modelName, modelId, stream, chain);
      StepCompletionsFront(initialPhrase, modelName, modelId, stream, chain);
    }
  }

  /**
   * Every step of the chain yields exactly one completion, failed or not, and
   * the `k`-th completion is step `k`'s: its language is the chain's `k`-th and
   * its text is what that step streamed, or the sentinel.
   */
  lemma ChainCompletions(initialPhrase: string, modelName: string, modelId: string,
                         stream: StreamCall -> StreamReply, chain: seq<ChainEntry>)
    ensures |Completions(ChainUpdates(initialPhrase, modelName, modelId, stream, chain))| == |chain|
    ensures forall k :: 0 <= k < |chain| ==>
      Completions(ChainUpdates(initialPhrase, modelName, modelId, stream, chain))[k]
      == Completion(modelName, chain[k].lang, ReplyAt(initialPhrase, modelId, stream, chain, k))
  {
    ChainCompletionList(initialPhrase, modelName, modelId, stream, chain);
  }

  /** No update of the chain is scored, and every one names the runner's model. */
  lemma {:induction false} ChainUpdatesUnscored(initialPhrase: string, modelName: string, modelId: string,
                                                stream: StreamCall -> StreamReply, chain: seq<ChainEntry>)
    ensures forall i :: 0 <= i < |ChainUpdates(initialPhrase, modelName, modelId, stream, chain)| ==>
      ChainUpdates(initialPhrase, modelName, modelId, stream, chain)[i].similarity == None
      && ChainUpdates(initialPhrase, modelName, modelId, stream, chain)[i].modelName == modelName
    decreases |chain|
  {
    if |chain| > 0 {
      var front := chain[..|chain| - 1];
      var lang := chain[|chain| - 1].lang;
      ChainUpdatesUnscored(initialPhrase, modelName, modelId, stream, front);
      StepUpdatesShape(modelName, lang, stream(StreamCall(|chain| - 1, Request(modelId, lang, TextAfter(initialPhrase, modelId, stream, front)))));
    }
  }

  /**
   * The generator first yields the original phrase, unscored; it ends with
   * the English update holding the final text and its similarity to the
   * original, in [0, 1]; no other update is scored, and every update names
   * the runner's model.
   */
  lemma StreamingShape(initialPhrase: string, modelName: string, modelId: string,
                       stream: StreamCall -> StreamReply, chain: seq<ChainEntry>)
    ensures var u := StreamingUpdates(initialPhrase, modelName, modelId, stream, chain);
      var finalText := TextAfter(initialPhrase, modelId, stream, chain);
      && u[0] == StreamUpdate(modelName, "Original", initialPhrase, false, None)
      && u[|u| - 1] == StreamUpdate(modelName, "English", finalText, true, Some(Similarity(initialPhrase, finalText)))
      && 0.0 <= Similarity(initialPhrase, finalText) <= 1.0
      && (forall i :: 0 <= i < |u| ==> u[i].modelName == modelName)
      && (forall i :: 0 <= i < |u| ==> (u[i].similarity.Some? <==> i == |u| - 1))
  {
    var finalText := TextAfter(initialPhrase, modelId, stream, chain);
    var first := [StreamUpdate(modelName, "Original", initialPhrase, false, None)];
    var middle := ChainUpdates(initialPhrase, modelName, modelId, stream, chain);
    var last := FinalUpdate(initialPhrase, modelName, finalText);
    var u := StreamingUpdates(initialPhrase, modelName, modelId, stream, chain);
    assert u == (first + middle) + [last];
    ChainUpdatesUnscored(initialPhrase, modelName, modelId, stream, chain);
    SimilarityInUnitInterval(initialPhrase, finalText);
    assert u[|u| - 1] == last;
    forall i | 0 <= i < |u|
      ensures u[i].modelName == modelName && (u[i].similarity.Some? <==> i == |u| - 1)
    {
      if 0 < i < |u| - 1 {
        assert u[i] == middle[i - 1];
      }
    }
  }

  /** An incomplete update before and a complete one after add only the latter to the completions. */
  lemma CompletionsAround(first: StreamUpdate, middle: seq<StreamUpdate>, last: StreamUpdate)
    requires !first.isComplete && last.isComplete
    ensures Completions([first] + middle + [last]) == Completions(middle) + [last]
  {
    CompletionsAppend([first], middle);
    CompletionsSingle(first);
    assert Completions([first] + middle) == Completions(middle);
    CompletionsAppend([first] + middle, [last]);
    CompletionsSingle(last);
  }

  /** The generator yields one completion per chain step, in chain order, and then the final update. */
  lemma StreamingCompletions(initialPhrase: string, modelName: string, modelId: string,
                             stream: StreamCall -> StreamReply, chain: seq<ChainEntry>)
    ensures var u := StreamingUpdates(initialPhrase, modelName, modelId, stream, chain);
      && |Completions(u)| == |chain| + 1
      && (forall k :: 0 <= k < |chain| ==>
            Completions(u)[k] == Completion(modelName, chain[k].lang, ReplyAt(initialPhrase, modelId, stream, chain, k)))
      && Completions(u)[|chain|] == u[|u| - 1]
  {
    var middle := ChainUpdates(initialPhrase, modelName, modelId, stream, chain);
    ChainCompletions(initialPhrase, modelName, modelId, stream, chain);
    CompletionsAround(StreamUpdate(modelName, "Original", initialPhrase, false, None), middle,
                      FinalUpdate(initialPhrase, modelName, TextAfter(initialPhrase, modelId, stream, chain)));
  }

  /**
   * The text the last step hands on, and the one that is scored: the text of
   * the last step that streamed successfully, or the original phrase when no
   * step did. Each step is prompted with this text as it stood before it.
   */
  lemma TextAfterLastSuccess(initialPhrase: string, modelId: string,
                              stream: StreamCall -> StreamReply, chain: seq<ChainEntry>)
    ensures (forall k :: 0 <= k < |chain| ==> ReplyAt(initialPhrase, modelId, stream, chain, k).Broken?) ==>
      TextAfter(initialPhrase, modelId, stream, chain) == initialPhrase
    ensures forall k :: 0 <= k < |chain| && ReplyAt(initialPhrase, modelId, stream, chain, k).Streamed?
                        && (forall m :: k < m < |chain| ==> ReplyAt(initialPhrase, modelId, stream, chain, m).Broken?) ==>
      TextAfter(initialPhrase, modelId, stream, chain) == Concat(ReplyAt(initialPhrase, modelId, stream, chain, k).chunks)
  {
    if forall k :: 0 <= k < |chain| ==> ReplyAt(initialPhrase, modelId, stream, chain, k).Broken? {
      TextAfterAllFailed(initialPhrase, modelId, stream, chain);
    }
    forall k | 0 <= k < |chain| && ReplyAt(initialPhrase, modelId, stream, chain, k).Streamed?
               && (forall m :: k < m < |chain| ==> ReplyAt(initialPhrase, modelId, stream, chain, m).Broken?)
      ensures TextAfter(initialPhrase, modelId, stream, chain) == Concat(ReplyAt(initialPhrase, modelId, stream, chain, k).chunks)
    {
      TextAfterStreamed(initialPhrase, modelId, stream, chain, k);
    }
  }

  /** Steps `0..n` of `chain[..n]` get the replies they get in `chain`. */
  ghost predicate SameReplies(initialPhrase: string, modelId: string, stream: StreamCall -> StreamReply,
                              chain: seq<ChainEntry>, n: nat)
    requires n <= |chain|
  {
    forall k :: 0 <= k < n ==> ReplyAt(initialPhrase, modelId, stream, chain[..n], k) == ReplyAt(initialPhrase, modelId, stream, chain, k)
  }

  lemma FrontSameReplies(initialPhrase: string, modelId: string, stream: StreamCall -> StreamReply,
                         chain: seq<ChainEntry>, n: nat)
    requires n <= |chain|
    ensures SameReplies(initialPhrase, modelId, stream, chain, n)
  {
    forall k | 0 <= k < n
      ensures ReplyAt(initialPhrase, modelId, stream, chain[..n], k) == ReplyAt(initialPhrase, modelId, stream, chain, k)
    {
      ReplyAtPrefix(initialPhrase, modelId, stream, chain, n, k);
    }
  }

  /** With every step failing, the text is still the original phrase. */
  lemma {:induction false} TextAfterAllFailed(initialPhrase: string, modelId: string,
                                              stream: StreamCall -> StreamReply, chain: seq<ChainEntry>)
    requires forall k :: 0 <= k < |chain| ==> ReplyAt(initialPhrase, modelId, stream, chain, k).Broken?
    ensures TextAfter(initialPhrase, modelId, stream, chain) == initialPhrase
    decreases |chain|
  {
    if |chain| > 0 {
      var n := |chain| - 1;
      FrontSameReplies(initialPhrase, modelId, stream, chain, n);
      TextAfterAllFailed(initialPhrase, modelId, stream, chain[..n]);
      TextAfterLast(initialPhrase, modelId, stream, chain);
    }
  }

  /** After step `k` streamed and every later one failed, the text is step `k`'s. */
  lemma {:induction false} TextAfterStreamed(initialPhrase: string, modelId: string,
                                             stream: StreamCall -> StreamReply, chain: seq<ChainEntry>, k: nat)
    requires k < |chain| && ReplyAt(initialPhrase, modelId, stream, chain, k).Streamed?
    requires forall m :: k < m < |chain| ==> ReplyAt(initialPhrase, modelId, stream, chain, m).Broken?
    ensures TextAfter(initialPhrase, modelId, stream, chain) == Concat(ReplyAt(initialPhrase, modelId, stream, chain, k).chunks)
    decreases |chain|
  {
    var n := |chain| - 1;
    TextAfterLast(initialPhrase, modelId, stream, chain);
    if k < n {
      FrontSameReplies(initialPhrase, modelId, stream, chain, n);
      TextAfterStreamed(initialPhrase, modelId, stream, chain[..n], k);
    }
  }

  /** The text after a non-empty chain is what its last step hands on. */
  lemma TextAfterLast(initialPhrase: string, modelId: string, stream: StreamCall -> StreamReply, chain: seq<ChainEntry>)
    requires |chain| > 0
    ensures TextAfter(initialPhrase, modelId, stream, chain)
      == NextText(TextAfter(initialPhrase, modelId, stream, chain[..|chain| - 1]),
                  ReplyAt(initialPhrase, modelId, stream, chain, |chain| - 1))
  {
  }

  /** When no step succeeds (or the chain is empty) the final text is the original and scores 1. */
  lemma AllStepsFailedScoresOne(initialPhrase: string, modelId: string,
                                stream: StreamCall -> StreamReply, chain: seq<ChainEntry>)
    requires forall k :: 0 <= k < |chain| ==> ReplyAt(initialPhrase, modelId, stream, chain, k).Broken?
    ensures Similarity(initialPhrase, TextAfter(initialPhrase, modelId, stream, chain)) == 1.0
  {
    TextAfterLastSuccess(initialPhrase, modelId, stream, chain);
    SimilarityOneIffNormalizedEqual(initialPhrase, initialPhrase);
  }
}
