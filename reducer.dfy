/**
 * The summarization pipeline (construct_ai.py, extract_structure,
 * create_summary and summarize_document).
 *
 * The completion server is an oracle: a function from the prompt string to
 * a reply, or to the error get_llm_response raises.  Every run records the
 * prompts it issued, in order, so that call counts, call order and what each
 * call carries can be stated exactly.
 */
module Reducer {
  import opened Strategy
  import opened Chunker
  import opened Prompts

  /** An HTTP or connection failure of the completion server. */
  datatype OracleError = TransportError(detail: string)

  datatype Result<T> = Ok(value: T) | Err(error: OracleError)

  type Oracle = string -> Result<string>

  /** Estimated-token ceiling above which the running summary is compressed. */
  const CompressionCeiling: nat := 8000

  predicate NeedsCompression(summary: string)
  {
    CountTokens(summary) > CompressionCeiling
  }

  /** The ceiling in characters: 32004 characters are the first to exceed. */
  lemma NeedsCompressionByLength(summary: string)
    ensures NeedsCompression(summary) <==> |summary| >= 32004
  {
  }

  /** What a stretch of the pipeline returns, or raises, and the prompts it
      sent, in order. */
  datatype Run = Run(outcome: Result<string>, prompts: seq<Prompt>)

  /** Runs `second` after `first` has succeeded. */
  function Then(first: Run, second: Run): (r: Run)
  {
    Run(second.outcome, first.prompts + second.prompts)
  }

  function Ask(oracle: Oracle, p: Prompt): (r: Run)
  {
    Run(oracle(Render(p)), [p])
  }

  /** extract_structure: no call when no outline is wanted, otherwise one call
      over the whole text whose reply is the outline, unmodified. */
  function ExtractStructure(text: string, c: SummaryConfig, oracle: Oracle): (r: Run)
    ensures !c.needsStructure ==> r == Run(Ok(""), [])
    ensures c.needsStructure ==>
      && |r.prompts| == 1
      && Roles(r.prompts[0]) == [DocumentText]
      && SlotsOf(r.prompts[0], DocumentText) == [text]
      && r.outcome == oracle(Render(r.prompts[0]))
  {
    StructurePromptSections(c, text);
    if !c.needsStructure then Run(Ok(""), [])
    else Ask(oracle, StructurePrompt(c, text))
  }

  /** The compression guard on a fresh reply: one compression call when the
      reply is over the ceiling, whose reply is taken as it is. */
  function Settle(reply: string, oracle: Oracle): (r: Run)
  {
    if NeedsCompression(reply) then Ask(oracle, CompressPrompt(reply)) else Run(Ok(reply), [])
  }

  /** One iteration of create_summary's loop. */
  function ChunkStep(c: SummaryConfig, structure: string, running: string, chunk: string, oracle: Oracle): (r: Run)
  {
    var p := ChunkPrompt(c, structure, running, chunk);
    match oracle(Render(p))
    case Err(e) => Run(Err(e), [p])
    case Ok(reply) => Then(Run(Ok(reply), [p]), Settle(reply, oracle))
  }

  /** The loop over the chunks from a given running summary; an oracle error
      ends the loop, as the exception does. */
  function Fold(c: SummaryConfig, structure: string, running: string, chunks: seq<string>, oracle: Oracle): (r: Run)
    decreases |chunks|
  {
    if chunks == [] then Run(Ok(running), [])
    else
      var step := ChunkStep(c, structure, running, chunks[0], oracle);
      if step.outcome.Err? then step
      else Then(step, Fold(c, structure, step.outcome.value, chunks[1..], oracle))
  }

  /** The chunks of the incremental path: sizes converted from tokens to
      characters at four characters per token. */
  function CharChunks(text: string, c: SummaryConfig): (chunks: seq<string>)
    requires ChunkableConfig(c) && c.useIncremental
  {
    ChunkSpansIn(|text|, c.chunkSize * CharsPerToken, c.overlapSize * CharsPerToken);
    Slices(text, ChunkSpans(|text|, c.chunkSize * CharsPerToken, c.overlapSize * CharsPerToken))
  }

  /** create_summary. */
  function CreateSummarySpec(text: string, structure: string, c: SummaryConfig, oracle: Oracle): (r: Run)
    requires ChunkableConfig(c)
  {
    if !c.useIncremental then Ask(oracle, WholeDocumentPrompt(c, structure, text))
    else Fold(c, structure, "", CharChunks(text, c), oracle)
  }

  /** summarize_document: strategy, then the outline pass, then create_summary
      with the outline as structure. */
  function Summarize(text: string, oracle: Oracle): (r: Run)
  {
    var c := StrategyFor(CountTokens(text));
    StrategyChunkable(CountTokens(text));
    var s := ExtractStructure(text, c, oracle);
    if s.outcome.Err? then s
    else Then(s, CreateSummarySpec(text, s.outcome.value, c, oracle))
  }

  /**
   * create_summary's loop: the reply to each chunk's prompt replaces the
   * running summary, and so does the reply to the compression prompt when the
   * chunk's reply exceeds the ceiling.
   */
  method CreateSummary(text: string, structure: string, c: SummaryConfig, oracle: Oracle)
    returns (summary: Result<string>, ghost prompts: seq<Prompt>)
    requires ChunkableConfig(c)
    ensures summary == CreateSummarySpec(text, structure, c, oracle).outcome
    ensures Run(summary, prompts) == CreateSummarySpec(text, structure, c, oracle)
  {
    if !c.useIncremental {
      var p := WholeDocumentPrompt(c, structure, text);
      summary := oracle(Render(p));
      prompts := [p];
      return;
    }
    var chunks := ChunkText(text, c.chunkSize * CharsPerToken, c.overlapSize * CharsPerToken);
    ghost var total := Fold(c, structure, "", chunks, oracle);
    var running := "";
    prompts := [];
    for i := 0 to |chunks|
      invariant total == Then(Run(Ok(running), prompts), Fold(c, structure, running, chunks[i..], oracle))
    {
      ghost var before, start := prompts, running;
      FoldUnfold(c, structure, running, chunks, i, oracle);
      var outcome;
      ghost var sent;
      outcome, sent := SummarizeChunk(c, structure, running, chunks[i], oracle);
      prompts := prompts + sent;
      if outcome.Err? {
        return outcome, prompts;
      }
      running := outcome.value;
      ThenAssoc(Run(Ok(start), before), Run(outcome, sent), Fold(c, structure, running, chunks[i + 1..], oracle));
    }
    summary := Ok(running);
  }

  /** The body of create_summary's loop for one chunk: the chunk's call, then
      the compression call when the reply is over the ceiling. */
  method SummarizeChunk(c: SummaryConfig, structure: string, running: string, chunk: string, oracle: Oracle)
    returns (outcome: Result<string>, ghost sent: seq<Prompt>)
    ensures outcome == ChunkStep(c, structure, running, chunk, oracle).outcome
    ensures Run(outcome, sent) == ChunkStep(c, structure, running, chunk, oracle)
  {
    var p := ChunkPrompt(c, structure, running, chunk);
    var reply := oracle(Render(p));
    sent := [p];
    if reply.Err? {
      return reply, sent;
    }
    outcome := reply;
    if CountTokens(reply.value) > CompressionCeiling {
      var q := CompressPrompt(reply.value);
      outcome := oracle(Render(q));
      sent := sent + [q];
    }
  }

  lemma ThenAssoc(a: Run, b: Run, x: Run)
    ensures Then(a, Then(b, x)) == Then(Run(b.outcome, a.prompts + b.prompts), x)
  {
    assert a.prompts + (b.prompts + x.prompts) == (a.prompts + b.prompts) + x.prompts;
  }

  /** One turn of the loop at index i: the step, then the rest. */
  lemma FoldUnfold(c: SummaryConfig, structure: string, running: string, chunks: seq<string>, i: nat, oracle: Oracle)
    requires i < |chunks|
    ensures var step := ChunkStep(c, structure, running, chunks[i], oracle);
      Fold(c, structure, running, chunks[i..], oracle)
      == if step.outcome.Err? then step else Then(step, Fold(c, structure, step.outcome.value, chunks[i + 1..], oracle))
  {
    assert chunks[i..][0] == chunks[i] && chunks[i..][1..] == chunks[i + 1..];
  }

  /** summarize_document. */
  method SummarizeDocument(text: string, oracle: Oracle) returns (summary: Result<string>, ghost prompts: seq<Prompt>)
    ensures summary == Summarize(text, oracle).outcome
    ensures Run(summary, prompts) == Summarize(text, oracle)
  {
    var tokenCount := CountTokens(text);
    var c := StrategyFor(tokenCount);
    StrategyChunkable(tokenCount);
    var s := ExtractStructure(text, c, oracle);
    if s.outcome.Err? {
      return s.outcome, s.prompts;
    }
    ghost var rest;
    summary, rest := CreateSummary(text, s.outcome.value, c, oracle);
    prompts := s.prompts + rest;
  }

  // ---------------------------------------------------------------------
  // Counting over a list of prompts

  /** The chunks carried by the prompts, in order. */
  function ChunkSlots(ps: seq<Prompt>): seq<string>
  {
    if ps == [] then [] else ChunksOf(ps[0]) + ChunkSlots(ps[1..])
  }

  function CountCompress(ps: seq<Prompt>): nat
  {
    if ps == [] then 0 else (if IsCompressPrompt(ps[0]) then 1 else 0) + CountCompress(ps[1..])
  }

  lemma {:induction false} CountsAppend(a: seq<Prompt>, b: seq<Prompt>)
    ensures ChunkSlots(a + b) == ChunkSlots(a) + ChunkSlots(b)
    ensures CountCompress(a + b) == CountCompress(a) + CountCompress(b)
  {
    if a == [] {
      assert a + b == b;
    } else {
      assert (a + b)[1..] == a[1..] + b;
      CountsAppend(a[1..], b);
    }
  }

  lemma CountsOne(p: Prompt)
    ensures ChunkSlots([p]) == ChunksOf(p)
    ensures CountCompress([p]) == if IsCompressPrompt(p) then 1 else 0
  {
    assert [p][1..] == [];
  }

  /** One chunk step: one prompt, the chunk's, plus one compression prompt
      exactly when the chunk's reply is over the ceiling; at most two calls,
      so a compressed reply is never checked again. */
  lemma ChunkStepCalls(c: SummaryConfig, structure: string, running: string, chunk: string, oracle: Oracle)
    ensures var r := ChunkStep(c, structure, running, chunk, oracle);
      var p := ChunkPrompt(c, structure, running, chunk);
      && 1 <= |r.prompts| <= 2
      && r.prompts[0] == p
      && (|r.prompts| == 2 <==> oracle(Render(p)).Ok? && NeedsCompression(oracle(Render(p)).value))
      && (|r.prompts| == 2 ==> r.prompts[1] == CompressPrompt(oracle(Render(p)).value))
      && r.outcome == oracle(Render(r.prompts[|r.prompts| - 1]))
      && ChunkSlots(r.prompts) == [chunk]
      && CountCompress(r.prompts) == |r.prompts| - 1
  {
    var p := ChunkPrompt(c, structure, running, chunk);
    ChunkPromptSections(c, structure, running, chunk);
    var r := ChunkStep(c, structure, running, chunk, oracle);
    var reply := oracle(Render(p));
    CountsOne(p);
    if reply.Ok? && NeedsCompression(reply.value) {
      var q := CompressPrompt(reply.value);
      assert r == Run(oracle(Render(q)), [p] + [q]);
      CompressPromptSections(reply.value);
      CountsOne(q);
      CountsAppend([p], [q]);
    } else {
      assert r == Run(reply, [p]);
    }
  }

  // ---------------------------------------------------------------------
  // Properties of the loop

  /** The result is the reply to the last prompt sent: each reply replaces
      the running summary, it is never appended to it. */
  lemma {:induction false} FoldFinalIsLastReply(c: SummaryConfig, structure: string, running: string, chunks: seq<string>, oracle: Oracle)
    requires chunks != []
    ensures var r := Fold(c, structure, running, chunks, oracle);
      r.prompts != [] && r.outcome == oracle(Render(r.prompts[|r.prompts| - 1]))
    decreases |chunks|
  {
    var step := ChunkStep(c, structure, running, chunks[0], oracle);
    ChunkStepLastReply(c, structure, running, chunks[0], oracle);
    if step.outcome.Err? {
      assert Fold(c, structure, running, chunks, oracle) == step;
    } else {
      var rest := Fold(c, structure, step.outcome.value, chunks[1..], oracle);
      assert Fold(c, structure, running, chunks, oracle) == Then(step, rest);
      if |chunks| == 1 {
        assert rest == Run(step.outcome, []);
        assert step.prompts + [] == step.prompts;
      } else {
        FoldFinalIsLastReply(c, structure, step.outcome.value, chunks[1..], oracle);
        ThenLast(step, rest);
      }
    }
  }

  /** A run followed by a non-empty run ends with the second one's last prompt. */
  lemma ThenLast(a: Run, b: Run)
    requires b.prompts != []
    ensures var r := Then(a, b);
      r.prompts != [] && r.prompts[|r.prompts| - 1] == b.prompts[|b.prompts| - 1] && r.outcome == b.outcome
  {
  }

  lemma ChunkStepLastReply(c: SummaryConfig, structure: string, running: string, chunk: string, oracle: Oracle)
    ensures var r := ChunkStep(c, structure, running, chunk, oracle);
      r.prompts != [] && r.outcome == oracle(Render(r.prompts[|r.prompts| - 1]))
  {
    ChunkStepCalls(c, structure, running, chunk, oracle);
  }

  /** Chunks are sent in order, one prompt each; a run that ends without
      error sent every chunk, and its calls are the chunks plus the
      compressions. */
  lemma {:induction false} FoldCalls(c: SummaryConfig, structure: string, running: string, chunks: seq<string>, oracle: Oracle)
    ensures var r := Fold(c, structure, running, chunks, oracle);
      && ChunkSlots(r.prompts) <= chunks
      && (r.outcome.Ok? ==> ChunkSlots(r.prompts) == chunks && |r.prompts| == |chunks| + CountCompress(r.prompts))
      && (r.outcome.Err? ==> chunks != [] && ChunkSlots(r.prompts) != [])
    decreases |chunks|
  {
    if chunks != [] {
      var step := ChunkStep(c, structure, running, chunks[0], oracle);
      ChunkStepCalls(c, structure, running, chunks[0], oracle);
      if step.outcome.Ok? {
        var rest := Fold(c, structure, step.outcome.value, chunks[1..], oracle);
        assert Fold(c, structure, running, chunks, oracle) == Then(step, rest);
        FoldCalls(c, structure, step.outcome.value, chunks[1..], oracle);
        CountsAppend(step.prompts, rest.prompts);
        assert chunks == [chunks[0]] + chunks[1..];
      }
    }
  }

  /** How consecutive calls hang together: a compression call carries the
      reply just before it, which came from a chunk call and was over the
      ceiling; a chunk call carries the reply just before it as the previous
      summary, and follows a chunk call only when that reply was within the
      ceiling. */
  ghost predicate Feeds(prev: Prompt, next: Prompt, oracle: Oracle)
  {
    && oracle(Render(prev)).Ok?
    && var r := oracle(Render(prev)).value;
    if IsCompressPrompt(next) then
      next == CompressPrompt(r) && NeedsCompression(r) && IsChunkPrompt(prev)
    else
      IsChunkPrompt(next) && PreviousOf(next) == r && (IsChunkPrompt(prev) ==> !NeedsCompression(r))
  }

  ghost predicate Chained(ps: seq<Prompt>, oracle: Oracle)
  {
    forall k :: 0 < k < |ps| ==> Feeds(ps[k - 1], ps[k], oracle)
  }

  /** Every prompt of the loop sees exactly the running summary left by the
      call before it, and the first one sees the initial running summary. */
  lemma {:induction false} FoldChained(c: SummaryConfig, structure: string, running: string, chunks: seq<string>, oracle: Oracle)
    ensures var r := Fold(c, structure, running, chunks, oracle);
      && Chained(r.prompts, oracle)
      && (r.prompts != [] ==> IsChunkPrompt(r.prompts[0]) && PreviousOf(r.prompts[0]) == running)
      && (chunks != [] <==> r.prompts != [])
    decreases |chunks|
  {
    if chunks != [] {
      var step := ChunkStep(c, structure, running, chunks[0], oracle);
      ChunkStepChained(c, structure, running, chunks[0], oracle);
      if step.outcome.Ok? {
        var next := step.outcome.value;
        var rest := Fold(c, structure, next, chunks[1..], oracle);
        assert Fold(c, structure, running, chunks, oracle) == Then(step, rest);
        FoldChained(c, structure, next, chunks[1..], oracle);
        if rest.prompts != [] {
          var last := step.prompts[|step.prompts| - 1];
          ChunkPromptSections(c, structure, next, chunks[1]);
          assert rest.prompts[0] == ChunkPrompt(c, structure, next, chunks[1]);
          assert Feeds(last, rest.prompts[0], oracle);
        }
        ChainedAppend(step.prompts, rest.prompts, oracle);
      }
    }
  }

  /** One chunk step is chained, starts with a chunk prompt carrying the
      running summary, and its last prompt's reply is the step's outcome,
      within the ceiling when that prompt was a chunk prompt. */
  lemma ChunkStepChained(c: SummaryConfig, structure: string, running: string, chunk: string, oracle: Oracle)
    ensures var r := ChunkStep(c, structure, running, chunk, oracle);
      && r.prompts != [] && Chained(r.prompts, oracle)
      && IsChunkPrompt(r.prompts[0]) && PreviousOf(r.prompts[0]) == running
      && (r.outcome.Ok? ==>
            var last := r.prompts[|r.prompts| - 1];
            oracle(Render(last)) == r.outcome && (IsChunkPrompt(last) ==> !NeedsCompression(r.outcome.value)))
  {
    var p := ChunkPrompt(c, structure, running, chunk);
    ChunkPromptSections(c, structure, running, chunk);
    var step := ChunkStep(c, structure, running, chunk, oracle);
    ChunkStepCalls(c, structure, running, chunk, oracle);
    if |step.prompts| == 2 {
      CompressPromptSections(oracle(Render(p)).value);
      assert Feeds(step.prompts[0], step.prompts[1], oracle);
    }
  }

  /** Two sequences whose neighbours are related by `rel` join into one
      when the last element of the first is related to the first of the
      second. */
  lemma LinkedAppend<T>(rel: (T, T) -> bool, a: seq<T>, b: seq<T>)
    requires forall k :: 0 < k < |a| ==> rel(a[k - 1], a[k])
    requires forall k :: 0 < k < |b| ==> rel(b[k - 1], b[k])
    requires a != [] && b != [] ==> rel(a[|a| - 1], b[0])
    ensures forall k :: 0 < k < |a + b| ==> rel((a + b)[k - 1], (a + b)[k])
  {
    var all := a + b;
    forall k | 0 < k < |all|
      ensures rel(all[k - 1], all[k])
    {
      var n := |a|;
      if k < n {
        assert all[k - 1] == a[k - 1] && all[k] == a[k];
      } else if k == n {
        assert all[k - 1] == a[n - 1] && all[k] == b[0];
      } else {
        assert all[k - 1] == b[k - 1 - n] && all[k] == b[k - n];
      }
    }
  }

  lemma ChainedAppend(a: seq<Prompt>, b: seq<Prompt>, oracle: Oracle)
    requires Chained(a, oracle) && Chained(b, oracle)
    requires a != [] && b != [] ==> Feeds(a[|a| - 1], b[0], oracle)
    ensures Chained(a + b, oracle)
  {
    LinkedAppend((p: Prompt, q: Prompt) => Feeds(p, q, oracle), a, b);
  }

  /** An oracle whose replies always fit never triggers compression. */
  lemma {:induction false} QuietOracleNeverCompresses(c: SummaryConfig, structure: string, running: string, chunks: seq<string>, oracle: Oracle)
    requires forall q :: oracle(q).Ok? ==> !NeedsCompression(oracle(q).value)
    ensures var r := Fold(c, structure, running, chunks, oracle);
      && CountCompress(r.prompts) == 0
      && (r.outcome.Ok? ==> |r.prompts| == |chunks|)
    decreases |chunks|
  {
    FoldCalls(c, structure, running, chunks, oracle);
    if chunks != [] {
      var step := ChunkStep(c, structure, running, chunks[0], oracle);
      ChunkStepCalls(c, structure, running, chunks[0], oracle);
      if step.outcome.Ok? {
        var rest := Fold(c, structure, step.outcome.value, chunks[1..], oracle);
        assert Fold(c, structure, running, chunks, oracle) == Then(step, rest);
        QuietOracleNeverCompresses(c, structure, step.outcome.value, chunks[1..], oracle);
        CountsAppend(step.prompts, rest.prompts);
      }
    }
  }

  /** An oracle whose replies are always over the ceiling triggers one
      compression per chunk: two calls per chunk. */
  lemma {:induction false} VerboseOracleAlwaysCompresses(c: SummaryConfig, structure: string, running: string, chunks: seq<string>, oracle: Oracle)
    requires forall q :: oracle(q).Ok? && NeedsCompression(oracle(q).value)
    ensures var r := Fold(c, structure, running, chunks, oracle);
      && r.outcome.Ok?
      && CountCompress(r.prompts) == |chunks|
      && |r.prompts| == 2 * |chunks|
    decreases |chunks|
  {
    FoldCalls(c, structure, running, chunks, oracle);
    if chunks != [] {
      var step := ChunkStep(c, structure, running, chunks[0], oracle);
      ChunkStepCalls(c, structure, running, chunks[0], oracle);
      var rest := Fold(c, structure, step.outcome.value, chunks[1..], oracle);
      assert Fold(c, structure, running, chunks, oracle) == Then(step, rest);
      VerboseOracleAlwaysCompresses(c, structure, step.outcome.value, chunks[1..], oracle);
      CountsAppend(step.prompts, rest.prompts);
    }
  }

  /** The compression reply is never checked again: when every reply is over
      the ceiling, two chunks cost four calls, and the second chunk prompt
      carries the compressed summary as its previous summary although that
      summary is itself over the ceiling. */
  lemma CompressionReplyUnchecked(c: SummaryConfig, structure: string, c0: string, c1: string, oracle: Oracle)
    requires forall q :: oracle(q).Ok? && NeedsCompression(oracle(q).value)
    ensures var r := Fold(c, structure, "", [c0, c1], oracle);
      && |r.prompts| == 4
      && IsCompressPrompt(r.prompts[1])
      && r.prompts[2] == ChunkPrompt(c, structure, oracle(Render(r.prompts[1])).value, c1)
      && PreviousOf(r.prompts[2]) == oracle(Render(r.prompts[1])).value
      && NeedsCompression(PreviousOf(r.prompts[2]))
  {
    var p0 := ChunkPrompt(c, structure, "", c0);
    var q0 := CompressPrompt(oracle(Render(p0)).value);
    var m := oracle(Render(q0)).value;
    var p1 := ChunkPrompt(c, structure, m, c1);
    var q1 := CompressPrompt(oracle(Render(p1)).value);
    assert ChunkStep(c, structure, "", c0, oracle) == Run(Ok(m), [p0, q0]);
    assert ChunkStep(c, structure, m, c1, oracle) == Run(oracle(Render(q1)), [p1, q1]);
    assert [c0, c1][0] == c0 && [c0, c1][1..] == [c1] && [c1][1..] == [];
    assert Fold(c, structure, m, [c1], oracle) == Run(oracle(Render(q1)), [p1, q1]);
    assert Fold(c, structure, "", [c0, c1], oracle) == Run(oracle(Render(q1)), [p0, q0, p1, q1]);
    CompressPromptSections(oracle(Render(p0)).value);
    ChunkPromptSections(c, structure, m, c1);
  }

  /** The two-chunk scenario: replies "S1" then "S2" leave "S2", not "S1S2",
      and the second prompt carries "S1" as the previous summary. */
  lemma TwoChunksReplace(c: SummaryConfig, structure: string, c0: string, c1: string, oracle: Oracle)
    requires oracle(Render(ChunkPrompt(c, structure, "", c0))) == Ok("S1")
    requires oracle(Render(ChunkPrompt(c, structure, "S1", c1))) == Ok("S2")
    ensures Fold(c, structure, "", [c0, c1], oracle)
            == Run(Ok("S2"), [ChunkPrompt(c, structure, "", c0), ChunkPrompt(c, structure, "S1", c1)])
  {
    assert [c0, c1][1..] == [c1];
    assert [c1][1..] == [];
    var p0, p1 := ChunkPrompt(c, structure, "", c0), ChunkPrompt(c, structure, "S1", c1);
    assert !NeedsCompression("S1") && !NeedsCompression("S2");
    assert ChunkStep(c, structure, "", c0, oracle) == Run(Ok("S1"), [p0]);
    assert ChunkStep(c, structure, "S1", c1, oracle) == Run(Ok("S2"), [p1]);
    assert Fold(c, structure, "S1", [c1], oracle) == Run(Ok("S2"), [p1]);
  }

  /** The closing request depends on emptiness, not position: when the first
      reply is empty, the second chunk is framed as a first section again. */
  lemma EmptyReplyRestartsFraming(c: SummaryConfig, structure: string, c0: string, c1: string, oracle: Oracle)
    requires oracle(Render(ChunkPrompt(c, structure, "", c0))) == Ok("")
    ensures var r := Fold(c, structure, "", [c0, c1], oracle);
      && |r.prompts| >= 2
      && r.prompts[1] == ChunkPrompt(c, structure, "", c1)
      && r.prompts[1][|r.prompts[1]| - 1] == Lit(FirstSectionSuffix)
  {
    var p0 := ChunkPrompt(c, structure, "", c0);
    assert !NeedsCompression("");
    assert ChunkStep(c, structure, "", c0, oracle) == Run(Ok(""), [p0]);
    assert [c0, c1][0] == c0 && [c0, c1][1..] == [c1];
    var rest := Fold(c, structure, "", [c1], oracle);
    assert Fold(c, structure, "", [c0, c1], oracle) == Then(Run(Ok(""), [p0]), rest);
    assert [c1][1..] == [];
    ChunkStepCalls(c, structure, "", c1, oracle);
    assert rest.prompts[0] == ChunkPrompt(c, structure, "", c1);
    ChunkPromptSections(c, structure, "", c1);
  }

  // ---------------------------------------------------------------------
  // Properties of the whole pipeline

  function StructureSlots(structure: string): seq<string>
  {
    if structure != "" then [structure] else []
  }

  /** A chunk prompt carrying the outline, or a compression prompt carrying
      no outline. */
  ghost predicate CarriesStructure(p: Prompt, structure: string)
  {
    && (IsChunkPrompt(p) || IsCompressPrompt(p))
    && SlotsOf(p, Structure) == if IsCompressPrompt(p) then [] else StructureSlots(structure)
  }

  ghost predicate SharesStructure(ps: seq<Prompt>, structure: string)
  {
    forall k :: 0 <= k < |ps| ==> CarriesStructure(ps[k], structure)
  }

  lemma SharesStructureAppend(a: seq<Prompt>, b: seq<Prompt>, structure: string)
    requires SharesStructure(a, structure) && SharesStructure(b, structure)
    ensures SharesStructure(a + b, structure)
  {
    forall k | 0 <= k < |a + b|
      ensures (a + b)[k] == if k < |a| then a[k] else b[k - |a|]
    {
    }
  }

  lemma ChunkStepSharesStructure(c: SummaryConfig, structure: string, running: string, chunk: string, oracle: Oracle)
    ensures SharesStructure(ChunkStep(c, structure, running, chunk, oracle).prompts, structure)
  {
    var p := ChunkPrompt(c, structure, running, chunk);
    var r := ChunkStep(c, structure, running, chunk, oracle);
    ChunkStepCalls(c, structure, running, chunk, oracle);
    ChunkPromptSections(c, structure, running, chunk);
    assert CarriesStructure(p, structure);
    if |r.prompts| == 2 {
      CompressPromptSections(oracle(Render(p)).value);
      assert CarriesStructure(r.prompts[1], structure);
    }
  }

  /** The outline is shared, read-only context: every chunk prompt carries it
      unchanged, and compression prompts do not carry it. */
  lemma {:induction false} FoldSharesStructure(c: SummaryConfig, structure: string, running: string, chunks: seq<string>, oracle: Oracle)
    ensures SharesStructure(Fold(c, structure, running, chunks, oracle).prompts, structure)
    decreases |chunks|
  {
    if chunks != [] {
      var step := ChunkStep(c, structure, running, chunks[0], oracle);
      ChunkStepSharesStructure(c, structure, running, chunks[0], oracle);
      if step.outcome.Ok? {
        var rest := Fold(c, structure, step.outcome.value, chunks[1..], oracle);
        assert Fold(c, structure, running, chunks, oracle) == Then(step, rest);
        FoldSharesStructure(c, structure, step.outcome.value, chunks[1..], oracle);
        SharesStructureAppend(step.prompts, rest.prompts, structure);
      }
    }
  }

  /** A document of at most 10000 estimated tokens costs exactly one call: no
      outline, no chunking; the prompt carries the whole text and no context
      section, and the reply is returned unchanged. */
  lemma ShortDocumentOneCall(text: string, oracle: Oracle)
    requires CountTokens(text) <= ShortDocThreshold
    ensures var r := Summarize(text, oracle);
      && |r.prompts| == 1
      && r.prompts[0] == WholeDocumentPrompt(StrategyFor(CountTokens(text)), "", text)
      && Roles(r.prompts[0]) == [DocumentText]
      && SlotsOf(r.prompts[0], DocumentText) == [text]
      && r.outcome == oracle(Render(r.prompts[0]))
  {
    var c := StrategyFor(CountTokens(text));
    WholeDocumentPromptSections(c, "", text);
  }

  /** Incremental folding always splits: a document above the short threshold
      is longer than one chunk of its tier, so it gets at least two chunks. */
  lemma IncrementalSplits(text: string)
    requires CountTokens(text) > ShortDocThreshold
    ensures ChunkableConfig(StrategyFor(CountTokens(text))) && StrategyFor(CountTokens(text)).useIncremental
    ensures |CharChunks(text, StrategyFor(CountTokens(text)))| >= 2
  {
    var c := StrategyFor(CountTokens(text));
    StrategyChunkable(CountTokens(text));
    TierByLength(text);
    ChunkSpansSingle(|text|, c.chunkSize * CharsPerToken, c.overlapSize * CharsPerToken);
    ChunkSpansShape(|text|, c.chunkSize * CharsPerToken, c.overlapSize * CharsPerToken);
  }

  /** A longer document runs the outline prompt and then folds the chunks
      with the outline as structure, unless the outline call fails. */
  lemma LongerDocumentRun(text: string, oracle: Oracle)
    requires CountTokens(text) > ShortDocThreshold
    ensures var c := StrategyFor(CountTokens(text));
      var p0 := StructurePrompt(c, text);
      var s := ExtractStructure(text, c, oracle);
      && ChunkableConfig(c) && c.useIncremental
      && s == Run(oracle(Render(p0)), [p0])
      && Summarize(text, oracle)
         == if s.outcome.Err? then s else Then(s, Fold(c, s.outcome.value, "", CharChunks(text, c), oracle))
  {
    var c := StrategyFor(CountTokens(text));
    StrategyChunkable(CountTokens(text));
  }

  /** A longer document: one outline call first, which carries the whole text;
      then, when nothing fails, one call per chunk in order plus one per
      compression, each chunk prompt carrying the outline. */
  lemma LongerDocumentCalls(text: string, oracle: Oracle)
    requires CountTokens(text) > ShortDocThreshold
    ensures var r := Summarize(text, oracle);
      var c := StrategyFor(CountTokens(text));
      && r.prompts != [] && r.prompts[0] == StructurePrompt(c, text)
      && (r.outcome.Ok? ==>
            var outline := oracle(Render(r.prompts[0])).value;
            && |r.prompts| == 1 + |CharChunks(text, c)| + CountCompress(r.prompts)
            && ChunkSlots(r.prompts[1..]) == CharChunks(text, c)
            && (forall k :: 1 <= k < |r.prompts| && !IsCompressPrompt(r.prompts[k]) ==>
                  SlotsOf(r.prompts[k], Structure) == StructureSlots(outline))
            && r.outcome == oracle(Render(r.prompts[|r.prompts| - 1])))
  {
    var c := StrategyFor(CountTokens(text));
    LongerDocumentRun(text, oracle);
    IncrementalSplits(text);
    var p0 := StructurePrompt(c, text);
    var outline := oracle(Render(p0));
    StructurePromptSections(c, text);
    SlotsOfAbsent(p0, CurrentChunk);
    if outline.Ok? {
      var chunks := CharChunks(text, c);
      var f := Fold(c, outline.value, "", chunks, oracle);
      FoldCalls(c, outline.value, "", chunks, oracle);
      FoldSharesStructure(c, outline.value, "", chunks, oracle);
      FoldFinalIsLastReply(c, outline.value, "", chunks, oracle);
      assert Summarize(text, oracle) == Then(Run(outline, [p0]), f);
      OutlineThenFold(p0, outline, f, chunks, oracle);
    }
  }

  /** An outline prompt answered by `outline`, followed by a fold over
      `chunks`: the call counts of the fold shift by one, and each later
      chunk prompt carries the outline. */
  lemma OutlineThenFold(p0: Prompt, outline: Result<string>, f: Run, chunks: seq<string>, oracle: Oracle)
    requires !IsCompressPrompt(p0) && ChunksOf(p0) == [] && outline.Ok?
    requires f.outcome.Ok? ==> ChunkSlots(f.prompts) == chunks && |f.prompts| == |chunks| + CountCompress(f.prompts)
    requires SharesStructure(f.prompts, outline.value)
    requires f.prompts != [] && f.outcome == oracle(Render(f.prompts[|f.prompts| - 1]))
    ensures var r := Then(Run(outline, [p0]), f);
      && r.prompts[0] == p0 && r.prompts[1..] == f.prompts
      && (r.outcome.Ok? ==>
            && |r.prompts| == 1 + |chunks| + CountCompress(r.prompts)
            && ChunkSlots(r.prompts[1..]) == chunks
            && (forall k :: 1 <= k < |r.prompts| && !IsCompressPrompt(r.prompts[k]) ==>
                  SlotsOf(r.prompts[k], Structure) == StructureSlots(outline.value))
            && r.outcome == oracle(Render(r.prompts[|r.prompts| - 1])))
  {
    var r := Then(Run(outline, [p0]), f);
    assert r.prompts[1..] == f.prompts;
    CountsAppend([p0], f.prompts);
    CountsOne(p0);
    forall k | 1 <= k < |r.prompts|
      ensures r.prompts[k] == f.prompts[k - 1]
    {
    }
  }

  /** The 50000-character scenario: 12500 estimated tokens selects the medium
      tier, whose 32000-character chunks overlapping by 4000 cut the text into
      [0, 32000) and [28000, 50000).  With replies that always fit, the calls
      are the outline, the first chunk framed as first section, and the second
      chunk carrying the first reply; the result is the last reply. */
  lemma MediumDocumentScenario(text: string, oracle: Oracle)
    requires |text| == 50000
    requires forall q :: oracle(q).Ok? && !NeedsCompression(oracle(q).value)
    ensures var c := StrategyFor(CountTokens(text));
      var outline := oracle(Render(StructurePrompt(c, text))).value;
      var p1 := ChunkPrompt(c, outline, "", text[0..32000]);
      var p2 := ChunkPrompt(c, outline, oracle(Render(p1)).value, text[28000..50000]);
      && c.documentType == Medium
      && Summarize(text, oracle) == Run(oracle(Render(p2)), [StructurePrompt(c, text), p1, p2])
  {
    var c := StrategyFor(CountTokens(text));
    assert CountTokens(text) == 12500;
    assert WindowsFrom(50000, 32000, 4000, 28000) == [Span(28000, 50000)];
    assert ChunkSpans(50000, 32000, 4000) == [Span(0, 32000), Span(28000, 50000)];
    var spans := [Span(0, 32000), Span(28000, 50000)];
    var chunks := CharChunks(text, c);
    SlicesAt(text, spans, 0);
    SlicesAt(text, spans, 1);
    assert chunks == [text[0..32000], text[28000..50000]];
    var outline := oracle(Render(StructurePrompt(c, text))).value;
    var p1 := ChunkPrompt(c, outline, "", text[0..32000]);
    var r1 := oracle(Render(p1)).value;
    var p2 := ChunkPrompt(c, outline, r1, text[28000..50000]);
    assert chunks[1..] == [text[28000..50000]];
    assert ChunkStep(c, outline, "", chunks[0], oracle) == Run(Ok(r1), [p1]);
    assert ChunkStep(c, outline, r1, chunks[1], oracle) == Run(oracle(Render(p2)), [p2]);
    assert Fold(c, outline, r1, chunks[1..], oracle) == Run(oracle(Render(p2)), [p2]) by {
      assert chunks[1..][1..] == [];
    }
  }
}
