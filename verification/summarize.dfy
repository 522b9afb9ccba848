/** The summarizer's planning around the language model: chunk sizes per
    content type, the strategy chosen for a number of chunks, how chunks are
    fed to the summarizing chain, and when the result is sent back for a
    length adjustment. The chain and the model are opaque function
    parameters. */
module Summarizer {
  import opened Common

  // ------------------------------------------------------------- chunking

  datatype ChunkConfig = ChunkConfig(size: int, overlap: int)

  /** The per-type table; unknown types use the default row. */
  function ConfigFor(contentType: string): (c: ChunkConfig)
    ensures contentType == "pdf" || contentType == "webpage" ==> c == ChunkConfig(2000, 200)
    ensures contentType == "youtube" ==> c == ChunkConfig(3000, 300)
    ensures contentType == "powerpoint" ==> c == ChunkConfig(1200, 120)
    ensures contentType == "image" ==> c == ChunkConfig(1500, 150)
    ensures contentType !in {"pdf", "youtube", "powerpoint", "image", "webpage"} ==> c == ChunkConfig(1800, 180)
    ensures c.overlap * 10 == c.size
  {
    if contentType == "pdf" then ChunkConfig(2000, 200)
    else if contentType == "youtube" then ChunkConfig(3000, 300)
    else if contentType == "powerpoint" then ChunkConfig(1200, 120)
    else if contentType == "image" then ChunkConfig(1500, 150)
    else if contentType == "webpage" then ChunkConfig(2000, 200)
    else ChunkConfig(1800, 180)
  }

  /** Python's `x or d` on an optional integer: `d` when `x` is missing or
      zero. */
  function OrDefault(x: Option<int>, d: int): int {
    if x.None? || x.value == 0 then d else x.value
  }

  /** The sizes `split_into_chunks` hands to its splitter. The table is
      consulted only when one of the two arguments is missing; then each
      argument that is missing or zero takes the table's value. */
  function ChunkParams(size: Option<int>, overlap: Option<int>, contentType: string): (c: ChunkConfig)
    ensures size.Some? && overlap.Some? ==> c == ChunkConfig(size.value, overlap.value)
    ensures size.None? || overlap.None? ==>
              c.size == (if size.None? || size.value == 0 then ConfigFor(contentType).size else size.value) &&
              c.overlap == (if overlap.None? || overlap.value == 0 then ConfigFor(contentType).overlap else overlap.value)
  {
    if size.None? || overlap.None? then
      var config := ConfigFor(contentType);
      ChunkConfig(OrDefault(size, config.size), OrDefault(overlap, config.overlap))
    else ChunkConfig(size.value, overlap.value)
  }

  /** With no arguments every type gets a positive size with a tenth of it as
      overlap; a zero is replaced only when its partner is missing. */
  lemma ChunkParamsDefaults(contentType: string, overlap: int)
    ensures var c := ChunkParams(None, None, contentType); c.size > 0 && c.overlap * 10 == c.size
    ensures ChunkParams(Some(0), None, contentType).size == ConfigFor(contentType).size
    ensures ChunkParams(Some(0), Some(overlap), contentType).size == 0
  {
  }

  // ------------------------------------------------------------- the chain

  /** What the chain is given: original chunks, or the intermediate summaries
      of earlier batches. */
  datatype ChainInput = Chunk(text: string) | Intermediate(summary: string)

  /** One invocation of the chain. */
  datatype Call = Call(inputs: seq<ChainInput>, existingSummary: Option<string>, userPrompt: string)

  /** The result of processing: the final text and every chain call made, in
      order. */
  datatype Run = Run(output: string, calls: seq<Call>)

  const NoContent := "No document content to process."
  const DefaultPrompt := "Provide a comprehensive summary of the key points and main ideas"

  function PromptToUse(userPrompt: Option<string>): (p: string)
    ensures userPrompt.Some? && userPrompt.value != "" ==> p == userPrompt.value
    ensures userPrompt.None? || userPrompt.value == "" ==> p == DefaultPrompt
  {
    if userPrompt.Some? && userPrompt.value != "" then userPrompt.value else DefaultPrompt
  }

  function Chunks(texts: seq<string>): (r: seq<ChainInput>)
    ensures |r| == |texts| && forall i :: 0 <= i < |r| ==> r[i] == Chunk(texts[i])
  {
    seq(|texts|, i requires 0 <= i < |texts| => Chunk(texts[i]))
  }

  /** The refine mode: the first chunk is summarised, then each following
      chunk refines the summary so far, which the new output replaces. */
  function RefineRun(docs: seq<string>, prompt: string, invoke: Call -> string): (run: Run)
    requires |docs| > 0
    ensures |run.calls| == |docs|
    ensures forall i :: 0 <= i < |docs| ==> run.calls[i].inputs == [Chunk(docs[i])] && run.calls[i].userPrompt == prompt
    ensures run.calls[0].existingSummary.None?
    ensures forall i :: 0 < i < |docs| ==> run.calls[i].existingSummary == Some(invoke(run.calls[i - 1]))
    ensures run.output == invoke(run.calls[|docs| - 1])
    decreases |docs|
  {
    if |docs| == 1 then
      var c := Call([Chunk(docs[0])], None, prompt);
      Run(invoke(c), [c])
    else
      var prev := RefineRun(docs[..|docs| - 1], prompt, invoke);
      var c := Call([Chunk(docs[|docs| - 1])], Some(prev.output), prompt);
      Run(invoke(c), prev.calls + [c])
  }

  /** The intermediate summaries of a list of batches, one call each. */
  function BatchCalls(batches: seq<seq<string>>, prompt: string): (r: seq<Call>)
    ensures |r| == |batches|
    ensures forall i :: 0 <= i < |r| ==> r[i] == Call(Chunks(batches[i]), None, prompt)
  {
    seq(|batches|, i requires 0 <= i < |batches| => Call(Chunks(batches[i]), None, prompt))
  }

  /** `process_document_in_chunks`. With more chunks than the batch size, a
      size of zero makes the Python `range` raise and a negative size gives
      an empty range; the map-reduce mode is modelled for positive sizes. */
  function Process(docs: seq<string>, invoke: Call -> string, userPrompt: Option<string>,
                   maxPerBatch: int, chainType: string): (run: Run)
    requires chainType == "refine" || |docs| <= maxPerBatch || maxPerBatch > 0
    ensures |docs| == 0 ==> run == Run(NoContent, [])
    ensures |docs| > 0 && chainType == "refine" ==> run == RefineRun(docs, PromptToUse(userPrompt), invoke)
    ensures |docs| > 0 && chainType != "refine" && |docs| <= maxPerBatch ==>
              run.calls == [Call(Chunks(docs), None, PromptToUse(userPrompt))] && run.output == invoke(run.calls[0])
    ensures |docs| > 0 && chainType != "refine" && |docs| > maxPerBatch ==>
              var batches := Batches(docs, maxPerBatch);
              var first := BatchCalls(batches, PromptToUse(userPrompt));
              && |run.calls| == |batches| + 1
              && run.calls[..|batches|] == first
              && run.calls[|batches|].inputs == seq(|first|, i requires 0 <= i < |first| => Intermediate(invoke(first[i])))
              && run.output == invoke(run.calls[|batches|])
  {
    var prompt := PromptToUse(userPrompt);
    if |docs| == 0 then Run(NoContent, [])
    else if chainType == "refine" then RefineRun(docs, prompt, invoke)
    else if |docs| <= maxPerBatch then
      var c := Call(Chunks(docs), None, prompt);
      Run(invoke(c), [c])
    else
      var first := BatchCalls(Batches(docs, maxPerBatch), prompt);
      var last := Call(seq(|first|, i requires 0 <= i < |first| => Intermediate(invoke(first[i]))), None, prompt);
      assert (first + [last])[..|first|] == first;
      Run(invoke(last), first + [last])
  }

  /** In map-reduce mode with more chunks than a batch holds, the batches
      cover the chunks in order, each full but the last, and the chain is
      called once per batch and once more to combine: the ceiling of n / b,
      plus one. */
  lemma MapReduceCallCount(docs: seq<string>, invoke: Call -> string, userPrompt: Option<string>, b: nat)
    requires b > 0 && |docs| > b
    ensures var run := Process(docs, invoke, userPrompt, b, "map_reduce");
            var k := |run.calls| - 1;
            k * b >= |docs| && (k - 1) * b < |docs| && k >= 2
    ensures Flatten(Batches(docs, b)) == docs
  {
  }

  /** Refining replaces: the result is the last call's output alone, and the
      earlier outputs reach it only as the summary being refined. */
  lemma RefineReplaces(docs: seq<string>, invoke: Call -> string, userPrompt: Option<string>)
    requires |docs| >= 2
    ensures var run := Process(docs, invoke, userPrompt, 0, "refine");
            && run.output == invoke(Call([Chunk(docs[|docs| - 1])], Some(invoke(run.calls[|docs| - 2])), PromptToUse(userPrompt)))
  {
  }

  // ------------------------------------------------------------- strategy

  datatype Strategy = Strategy(chainType: string, maxBatchSize: nat)

  /** Few chunks are refined one by one; more are map-reduced in batches of
      six, or of eight beyond twenty chunks. */
  function ChooseStrategy(numChunks: nat): (s: Strategy)
    ensures s.chainType == "refine" <==> numChunks <= 5
    ensures s.chainType != "refine" ==> s.chainType == "map_reduce"
    ensures numChunks <= 5 ==> s.maxBatchSize == numChunks
    ensures 5 < numChunks <= 20 ==> s.maxBatchSize == 6
    ensures numChunks > 20 ==> s.maxBatchSize == 8
  {
    if numChunks <= 5 then Strategy("refine", numChunks)
    else if numChunks <= 20 then Strategy("map_reduce", 6)
    else Strategy("map_reduce", 8)
  }

  /** The chosen strategy always meets what processing needs, and map-reduce
      splits into batches except at exactly six chunks, which fit one batch
      of six and go to the chain in a single call. */
  lemma StrategyFitsProcess(numChunks: nat)
    ensures var s := ChooseStrategy(numChunks);
            (s.chainType == "refine" || numChunks <= s.maxBatchSize || s.maxBatchSize > 0)
            && (s.chainType == "map_reduce" && numChunks > s.maxBatchSize <==> numChunks > 6)
  {
  }

  // --------------------------------------------------------------- length

  /** Target word ranges per requested length; anything else is medium. */
  function TargetRange(length: string): (r: (nat, nat))
    ensures length == "short" ==> r == (250, 400)
    ensures length == "long" ==> r == (900, 1400)
    ensures length != "short" && length != "long" ==> r == (500, 800)
  {
    if length == "short" then (250, 400) else if length == "long" then (900, 1400) else (500, 800)
  }

  /** Adjust when the word count is below 80% of the minimum or above 120%
      of the maximum. The floating-point products are exact for the three
      ranges, so the comparison is stated in integers. */
  predicate NeedsAdjustment(wordCount: nat, length: string) {
    var (lo, hi) := TargetRange(length);
    5 * wordCount < 4 * lo || 5 * wordCount > 6 * hi
  }

  /** The tolerance band for each length, in words. */
  lemma AdjustmentBands(wordCount: nat, length: string)
    ensures length == "short" ==> (NeedsAdjustment(wordCount, length) <==> wordCount < 200 || wordCount > 480)
    ensures length == "long" ==> (NeedsAdjustment(wordCount, length) <==> wordCount < 720 || wordCount > 1680)
    ensures length != "short" && length != "long" ==>
              (NeedsAdjustment(wordCount, length) <==> wordCount < 400 || wordCount > 960)
  {
  }

  /** The length step: a summary inside the band is kept; one outside is
      replaced by the model's answer, or kept when the model fails. */
  function AdjustLength(summary: string, length: string, predict: string -> Option<string>): (r: string)
    ensures !NeedsAdjustment(|Words(summary)|, length) ==> r == summary
    ensures NeedsAdjustment(|Words(summary)|, length) ==>
              r == predict(AdjustmentPrompt(summary, length)).GetOr(summary)
  {
    if NeedsAdjustment(|Words(summary)|, length) then
      match predict(AdjustmentPrompt(summary, length))
      case Some(s) => s
      case None => summary
    else summary
  }

  function AdjustmentPrompt(summary: string, length: string): string {
    var (lo, hi) := TargetRange(length);
    "Adjust this summary to " + NatToString(lo) + "-" + NatToString(hi) +
    " words while preserving all key information:\n\n" + summary + "\n\nAdjusted summary:"
  }

  /** Adjusting is stable for a model that answers inside the band: the
      answer is not adjusted again. */
  lemma AdjustLengthSettles(summary: string, length: string, predict: string -> Option<string>)
    requires forall p :: predict(p).Some? ==> !NeedsAdjustment(|Words(predict(p).value)|, length)
    ensures var r := AdjustLength(summary, length, predict);
            r != summary ==> AdjustLength(r, length, predict) == r
  {
  }
}
