# Document summarisation pipeline — a Dafny model

`construct_ai.py` summarises long documents through a completion server.
It walks the working directory for `.txt`, `.pdf` and `.gdoc` files that
have no summary yet in the `ai summaries` tree. For each one it does the
following:

- It estimates the document's size in tokens (four characters per token)
  and picks a short, medium or long strategy.
- For medium and long documents, it asks the server for an outline of the
  whole text.
- A short document is then summarised in one call. A longer one is cut
  into overlapping character windows and folded incrementally. Each
  window's prompt carries the outline and the running summary so far.
  Each reply replaces the running summary, and a reply over 8000 estimated
  tokens is compressed by one more call.
- The summary is written at the mirrored path inside `ai summaries`.

A cleanup pass then strips from the summary files every character other
than the ASCII letters `a`-`z` and `A`-`Z`, the digits `0`-`9`, `.,!?` and
whitespace. Accented and other non-ASCII letters are stripped too.

The project has one module per component:

| file | module | what it models |
|---|---|---|
| `strategy.dfy` | `Strategy` | token estimate, strategy table |
| `text.dfy` | `Text` | `startswith`/`endswith`, `strip`, `lower` |
| `chunker.dfy` | `Chunker` | `chunk_text`, as spans and as the loop itself |
| `prompts.dfy` | `Prompts` | the pieces each prompt is built from |
| `reducer.dfy` | `Reducer` | outline pass, incremental fold, `summarize_document` |
| `cleanup.dfy` | `Cleanup` | the character filter and the overwrite pass |
| `discovery.dfy` | `Discovery` | walk filtering, summary paths, the processing loop |

How the model is built:

- **The server is an oracle.** It is a function from the rendered prompt
  string to a reply or an error (`Reducer.Oracle`).
- **Every run records the prompts it sent**, in order. This lets the
  lemmas state exactly how many calls are made, in which order, and what
  each call carries.
- **A prompt is the sequence of its f-string pieces.** Fixed template
  text, counts, and interpolated values tagged with their role.
- **The file system is given as data.** The walk is a list of
  (directory, file names) entries. The existing summaries are a set of
  paths. Reading a document is a function from path and kind to content.

Three behaviours of the script are modelled as written and proved:

- A name that is nothing but dots before its extension, such as `.pdf`, is
  accepted by discovery. Processing then finds no file type and skips it
  (`Discovery.SupportedClassified`). Such a file writes nothing, so the next
  run discovers it again, unless some other document's summary took its
  summary path (`Discovery.DotsOnlyNameRediscovered`).
- The reply to a compression call is never checked against the ceiling
  again. A compressed summary that is still too long is carried into the
  next chunk prompt as it is (`Reducer.CompressionReplyUnchecked`).
- `report.txt` and `report.pdf` in one directory share one summary path
  (`Discovery.SummaryNamesCollide`).

## Model

| member | source | states |
|---|---|---|
| Strategy.CountTokens | construct_ai.py:770-772 | the estimate t satisfies 4t <= length < 4t + 4, so it is the length floor-divided by four |
| Strategy.CountTokensMonotone | construct_ai.py:770-772 | a longer text never has a smaller token estimate |
| Strategy.StrategyFor | construct_ai.py:774-807 | the tier is short exactly when the estimate is at most 10000, medium exactly when it is in (10000, 15000], long exactly when it is above 15000 |
| Strategy.StrategyTable | construct_ai.py:774-807 | each band's outline flag, incremental flag, chunk size, overlap and section count: (no, no, t, 0, 3), (yes, yes, 8000, 1000, 5), (yes, yes, 10000, 1500, 8) |
| Strategy.StrategyTies | construct_ai.py:775-786 | the thresholds are inclusive: 10000 is short, 10001 and 15000 are medium, 15001 is long |
| Strategy.StrategyChunkable | construct_ai.py:774-807 | every configuration has 0 <= overlap < chunk when incremental; the outline is requested exactly when folding is incremental, which is exactly above 10000 tokens |
| Strategy.StrategyMonotone | construct_ai.py:770-807 | lengthening a document never moves it to a smaller tier |
| Strategy.TierByLength | construct_ai.py:770-807 | in characters: short exactly below 40004, long exactly from 60004 |
| Text.IsWhitespace | construct_ai.py:954 | the characters taken as whitespace by `strip()` and by the `\s` of the cleanup pattern, one set for both; `Text.StripShape` and `Cleanup.CleanFixedIff` are stated over it |
| Text.Strip | construct_ai.py:1074 | `strip()`: whitespace removed from both ends; `Text.StripShape` proves that it is empty exactly for a blank text and otherwise a slice with no whitespace at either end |
| Text.Lower | construct_ai.py:1003 | `lower()` on ASCII: each character's lower case; used by `IsSupported` and `FileType`, whose lemmas (`Discovery.FileTypeDotted`, `Discovery.ClassifyNames`) state what results |
| Text.StripShape | construct_ai.py:1074-1076 | `strip` is empty exactly when the text is all whitespace; otherwise it neither starts nor ends with whitespace; it is a contiguous slice of the text |
| Chunker.ChunkText | construct_ai.py:827-847 | the loop returns exactly the text slices over `ChunkSpans`, which lie inside the text |
| Chunker.WindowsFrom | construct_ai.py:834-845 | the loop's windows from `start` on: a full window of `size` while it does not reach the end, the next starting `overlap` before it ends, then the window up to the end; its shape is proved in `Chunker.ChunkSpansShape` |
| Chunker.ChunkSpans | construct_ai.py:827-847 | the spans `chunk_text` cuts: the whole text when it fits in one chunk, otherwise `WindowsFrom` at 0; `Chunker.ChunkSpansShape`, `Chunker.ChunkSpansCount` and `Chunker.ChunksReconstruct` state its properties |
| Chunker.ChunkSpansShape | construct_ai.py:827-847 | at least one chunk; the first starts at 0 and the last ends at the text's end; every chunk is at most `size` long and every chunk but the last exactly `size`; each next chunk starts `overlap` before the previous one ends |
| Chunker.ChunkSpansSingle | construct_ai.py:828-829 | a single chunk exactly when the chunk size is at least the text length |
| Chunker.ChunkSpansCount | construct_ai.py:834-845 | with 0 <= overlap < size < n there are ceil((n - overlap) / (size - overlap)) chunks |
| Chunker.CeilDivIsCeiling | construct_ai.py:834-845 | the chunk count function is the ceiling of the division |
| Chunker.ChunkSpansExample | construct_ai.py:827-847 | 50000 characters in 40000-character windows overlapping 4000 give [0, 40000) and [36000, 50000) |
| Chunker.ChunksReconstruct | construct_ai.py:839-845 | the first chunk followed by every later chunk minus its first `overlap` characters is the original text: nothing is lost or duplicated |
| Chunker.SlicesAt | construct_ai.py:839-840 | chunk i is the text between span i's bounds |
| Prompts.ContextSection | construct_ai.py:261-265 | the context section of a prompt, built from the outline and the previous summary; `Prompts.ContextSectionSlots` states which values it holds |
| Prompts.SummaryPrompt | construct_ai.py:259-265 | the summary instructions followed by the context section; `Prompts.SummaryPromptSections` states its values |
| Prompts.StructurePrompt | construct_ai.py:813-814 | the outline request over the whole text; `Prompts.StructurePromptSections` states its values |
| Prompts.WholeDocumentPrompt | construct_ai.py:852-853 | the single-call prompt; `Prompts.WholeDocumentPromptSections` states its values |
| Prompts.ChunkPrompt | construct_ai.py:867-873 | the chunk prompt, with its closing request chosen by whether a running summary exists; `Prompts.ChunkPromptSections` and `Prompts.ChunkPromptSlots` state its values |
| Prompts.CompressPrompt | construct_ai.py:888 | the compression request over the running summary; `Prompts.CompressPromptSections` states its values |
| Prompts.ContextSectionSlots | construct_ai.py:261-265 | the context section holds the structure slot exactly when the structure is non-empty and the previous-summary slot exactly when the previous summary is non-empty, structure first, with their values unchanged |
| Prompts.SummaryPromptSections | construct_ai.py:259-265 | a summary prompt's interpolated values are exactly its context section's, with no chunk or document text, and the previous summary it carries is the one given |
| Prompts.StructurePromptSections | construct_ai.py:813-814 | the outline prompt carries the whole text and no other value, and is neither a chunk nor a compression prompt |
| Prompts.WholeDocumentPromptSections | construct_ai.py:852-853 | the single-call prompt carries the structure, when non-empty, then the whole text; it has no previous summary |
| Prompts.ChunkPromptSections | construct_ai.py:867-873 | a chunk prompt carries the structure when non-empty, the running summary when non-empty, and its chunk; it ends with the update request exactly when the running summary is non-empty, and with the first-section request exactly when it is empty |
| Prompts.ChunkPromptSlots | construct_ai.py:867-868 | the roles and values of a chunk prompt, in order |
| Prompts.SuffixesDistinct | construct_ai.py:870-873 | whatever precedes them, the two closing requests can be told apart by the rendered string's end |
| Prompts.ChunkPromptRenderedSuffix | construct_ai.py:870-873 | the rendered chunk prompt ends with the update request exactly when the running summary is non-empty |
| Prompts.CompressPromptSections | construct_ai.py:888 | the compression prompt carries just the summary to compress |
| Reducer.NeedsCompressionByLength | construct_ai.py:886 | compression triggers exactly at 32004 characters or more |
| Reducer.NeedsCompression | construct_ai.py:886 | compression is due when the running summary's token estimate exceeds 8000; `Reducer.NeedsCompressionByLength` gives the threshold in characters |
| Reducer.Settle | construct_ai.py:885-889 | a reply over the ceiling costs one compression call whose reply is kept as it is; any other reply is kept without a call; `Reducer.ChunkStepCalls` states the cost |
| Reducer.ChunkStep | construct_ai.py:867-895 | one chunk: its prompt, then `Settle` on the reply, or the error; `Reducer.ChunkStepCalls` and `Reducer.SummarizeChunk` state what it sends and returns |
| Reducer.Fold | construct_ai.py:862-897 | the loop over the chunks, the running summary threaded from one step to the next and an error ending it; `Reducer.FoldCalls`, `Reducer.FoldChained` and `Reducer.FoldFinalIsLastReply` state its properties |
| Reducer.CharChunks | construct_ai.py:857-861 | the chunks cut with the token sizes times four; `Reducer.IncrementalSplits` states what it gives for every tier above short |
| Reducer.CreateSummarySpec | construct_ai.py:849-897 | `create_summary`: one whole-document call for a short configuration, otherwise `Fold` over `CharChunks`; `Reducer.CreateSummary` is proved to compute it |
| Reducer.Summarize | construct_ai.py:899-915 | `summarize_document`: strategy, outline pass, then `CreateSummarySpec` with the outline; `Reducer.ShortDocumentOneCall`, `Reducer.LongerDocumentRun` and `Reducer.LongerDocumentCalls` state its calls |
| Reducer.ExtractStructure | construct_ai.py:809-825 | no call and an empty outline when the tier wants none; otherwise one call carrying the whole text, whose reply is the outline |
| Reducer.SummarizeChunk | construct_ai.py:864-895 | one loop iteration yields exactly the chunk step: the chunk prompt, then the compression prompt when its reply is over the ceiling |
| Reducer.CreateSummary | construct_ai.py:849-897 | the result and prompts are those of `CreateSummarySpec`: one whole-document call, or the fold over the character chunks from an empty running summary |
| Reducer.ChunkStepCalls | construct_ai.py:867-895 | one chunk costs one or two calls, two exactly when the reply is over the ceiling; the second is the compression of that reply; the outcome is the last reply; the step sends exactly its one chunk |
| Reducer.FoldFinalIsLastReply | construct_ai.py:883-897 | the result of a non-empty fold is the reply to its last prompt: replies replace the running summary, never append to it |
| Reducer.FoldCalls | construct_ai.py:864-897 | chunks are sent in order, each once; a successful run sent all of them and made one call per chunk plus one per compression; a failed run stopped after sending some |
| Reducer.FoldChained | construct_ai.py:862-889 | each prompt carries the reply to the one before it: a compression carries an over-ceiling chunk reply, and a chunk prompt carries the last reply as its previous summary; the first prompt carries the initial running summary |
| Reducer.CompressionReplyUnchecked | construct_ai.py:883-889 | with every reply over the ceiling, two chunks cost four calls; the second is a compression call, and its reply goes unchecked into the next chunk prompt as the previous summary, though it is still over the ceiling |
| Reducer.QuietOracleNeverCompresses | construct_ai.py:885-889 | with replies that always fit, no compression is sent and a successful run makes one call per chunk |
| Reducer.VerboseOracleAlwaysCompresses | construct_ai.py:885-889 | with replies always over the ceiling, every chunk is compressed: two calls per chunk |
| Reducer.TwoChunksReplace | construct_ai.py:862-897 | replies "S1" then "S2" leave "S2"; the second prompt carries "S1" as the previous summary |
| Reducer.EmptyReplyRestartsFraming | construct_ai.py:870-873 | after an empty first reply, the second chunk is framed as a first section again |
| Reducer.FoldSharesStructure | construct_ai.py:867 | every chunk prompt of the fold carries the same structure, and the compression prompts carry none |
| Reducer.SummarizeDocument | construct_ai.py:899-915 | the method computes `Summarize`: strategy, then the outline pass, then `create_summary` with the outline |
| Reducer.ShortDocumentOneCall | construct_ai.py:850-854 | a document of at most 10000 estimated tokens costs exactly one call, which carries the whole text and no context section; the reply is returned as is |
| Reducer.IncrementalSplits | construct_ai.py:856-861 | above the short threshold the configuration is chunkable and the text is cut into at least two chunks |
| Reducer.LongerDocumentRun | construct_ai.py:899-915 | a longer document sends the outline prompt first and then folds its character chunks with the outline as structure, unless the outline call fails |
| Reducer.LongerDocumentCalls | construct_ai.py:899-915 | a longer document first sends one outline call; on success, one call per chunk in order plus one per compression, each chunk prompt carrying the outline, and the result is the last reply |
| Reducer.OutlineThenFold | construct_ai.py:909-913 | putting the outline call in front of a fold shifts its call counts by one and keeps the outline in every chunk prompt |
| Reducer.MediumDocumentScenario | construct_ai.py:899-915 | 50000 characters select the medium tier and the chunks [0, 32000) and [28000, 50000); with replies that fit, the calls are the outline, the first chunk and the second chunk carrying the first reply; the result is the last reply |
| Cleanup.Clean | construct_ai.py:954 | the filtered text is no longer than the input and holds only allowed characters |
| Cleanup.IsAllowed | construct_ai.py:954 | the characters the pattern keeps: ASCII letters, digits, `.,!?` and whitespace; `Cleanup.CleanIsAllowedSubsequence` and `Cleanup.CleanFixedIff` are stated over it |
| Cleanup.CleanIsAllowedSubsequence | construct_ai.py:954 | the output is exactly the allowed characters of the input, in order, none omitted |
| Cleanup.CleanCounts | construct_ai.py:954 | each allowed character keeps all its occurrences and each other character loses all of them |
| Cleanup.CleanFixedIff | construct_ai.py:954-956 | a text comes through unchanged exactly when all its characters are allowed |
| Cleanup.CleanIdempotent | construct_ai.py:954 | filtering twice is filtering once |
| Cleanup.NeedsRewriteIff | construct_ai.py:944-956 | a file is overwritten exactly when it is a `.txt` file holding some disallowed character |
| Cleanup.NeedsRewrite | construct_ai.py:956 | a file is rewritten when its cleaned content differs; `Cleanup.NeedsRewriteIff` states when that is |
| Cleanup.SecondPassWritesNothing | construct_ai.py:942-962 | a second cleanup pass right after the first overwrites nothing and changes nothing |
| Cleanup.CleanSummaries | construct_ai.py:939-968 | the pass counts the `.txt` files scanned and overwrites, in order, exactly the changed ones, with only allowed characters |
| Discovery.SplitPathJoin | construct_ai.py:1013-1014 | for a path joined from a directory and a slash-free name, `basename` gives the name and `dirname` the directory |
| Discovery.SplitExt | construct_ai.py:1014 | `splitext`: the extension starts at the last dot, unless everything before that dot is dots, in which case it is empty; `Discovery.SplitExtShape` states its shape |
| Discovery.SummaryFileName | construct_ai.py:1015 | the stem followed by `_ai_summary.txt`; `Discovery.SplitExtDotted` and `Discovery.SplitExtHidden` state what it gives |
| Discovery.IsSupported | construct_ai.py:1003 | the lower-cased name ends in `.txt`, `.pdf` or `.gdoc`; `Discovery.SupportedClassified` states what processing makes of it |
| Discovery.FileType | construct_ai.py:1055 | the extension without its dot, lower-cased; `Discovery.FileTypeDotted` and `Discovery.FileTypeHidden` state what it gives |
| Discovery.Classify | construct_ai.py:756-768 | the reader a file type dispatches to, or unsupported; `Discovery.ClassifyNames` states it for each type |
| Discovery.SplitExtShape | construct_ai.py:1015 | root and extension rebuild the name; the extension is empty or one dot followed by no other |
| Discovery.SplitExtDotted | construct_ai.py:1015-1016 | after a stem that is not all dots, only the last extension is replaced by `_ai_summary.txt` |
| Discovery.SplitExtHidden | construct_ai.py:1015-1016 | a name that is all dots before its last extension keeps that extension in its summary name |
| Discovery.SummaryNamesCollide | construct_ai.py:1014-1016 | `report.txt` and `report.pdf` get the same summary name |
| Discovery.SummaryNameExamples | construct_ai.py:1015-1016 | `.pdf` becomes `.pdf_ai_summary.txt`; `notes.v2.gdoc` becomes `notes.v2_ai_summary.txt` |
| Discovery.FileTypeDotted | construct_ai.py:1055 | after a stem that is not all dots, the file type is the lower-cased extension |
| Discovery.FileTypeHidden | construct_ai.py:1055 | after a front of nothing but dots, the file type is empty |
| Discovery.ClassifyNames | construct_ai.py:756-768 | `txt`, `pdf` and `gdoc` pick the three readers; an empty type is unsupported |
| Discovery.SupportedClassified | construct_ai.py:1054-1055 | a name discovery accepts is read as the kind its extension names, and is rejected as unsupported exactly when all of it before the extension is dots |
| Discovery.AbsTargets | construct_ai.py:983-984 | the target folders, stripped, with blank ones dropped, each joined onto the root; `Discovery.AbsTargetsEmptyIff` states when filtering is off |
| Discovery.Selected | construct_ai.py:992-999 | a walked directory is searched when it is not inside the summaries directory and, with targets, starts with one of them; `Discovery.SummariesNotSearched` and `Discovery.PrefixTestsAreTextual` state its behaviour |
| Discovery.AbsTargetsEmptyIff | construct_ai.py:983-984 | target filtering is off exactly when every configured folder is blank |
| Discovery.SummariesNotSearched | construct_ai.py:992-994 | with the working directory as root, no directory inside the summaries tree is searched, whatever the targets |
| Discovery.PrefixTestsAreTextual | construct_ai.py:992-999 | both tests compare path text: a sibling `ai summaries old` is skipped, and `AI Ethics Archive` is searched when the target is `AI Ethics` |
| Discovery.FilesFoundMembers | construct_ai.py:1002-1004 | a path is found in a directory exactly when it joins a supported name onto the directory's path |
| Discovery.FoundMembers | construct_ai.py:989-1004 | a path is found exactly when it joins a supported name of a selected walked directory onto that directory's path |
| Discovery.ToProcessMembers | construct_ai.py:1010-1024 | a found file is kept exactly when its summary path does not exist |
| Discovery.SummaryPathFor | construct_ai.py:1012-1020 | the summary path discovery tests for existence: the summary name under the mirrored directory; `Discovery.SummaryPathBelow` and `Discovery.SummaryPathInside` state where it lies |
| Discovery.RelPathBelow | construct_ai.py:1018 | `relpath` of a path below the start is the part below it, or `.` for the start itself |
| Discovery.SummaryPathBelow | construct_ai.py:1018-1021 | the summary path of a document in a directory below the root is that directory's mirror inside the summaries directory |
| Discovery.MirrorPath | construct_ai.py:1082-1097 | a document `name` in directory `dir` below the working directory has its summary at `ai summaries/dir/<summary name>` |
| Discovery.WritePath | construct_ai.py:1082-1097 | the path the summary is written to, computed from the working directory as the write step does |
| Discovery.WritePathIsSummaryPath | construct_ai.py:1082-1097 | the write-time path equals the path discovery tests, when discovery's root is the working directory |
| Discovery.SummaryPathInside | construct_ai.py:1090-1097 | every summary path lies inside the summaries directory |
| Discovery.SupportedIn | construct_ai.py:1002-1004 | the file loop of one directory collects exactly `FilesFound` |
| Discovery.CollectSupported | construct_ai.py:989-1004 | the walk loop collects exactly `Found`: the supported files of the selected directories, in walk order |
| Discovery.KeepUnsummarised | construct_ai.py:1010-1024 | the existence loop keeps exactly `ToProcess` |
| Discovery.DiscoverFilesToProcess | construct_ai.py:971-1026 | the result is the unsummarised subset, in order, of the supported files of the selected directories |
| Discovery.Summarizer | construct_ai.py:1079 | the summariser the processing loop uses: `Reducer.Summarize` with the server oracle, keeping only its outcome |
| Discovery.ProcessOne | construct_ai.py:1053-1107 | one iteration of the processing loop; `Discovery.ProcessOneWrites` and `Discovery.ProcessOneShape` state what it writes |
| Discovery.SummarizeContent | construct_ai.py:1074-1101 | blank or unreadable content, or a failed summarisation, writes nothing; otherwise one summary at the mirrored path |
| Discovery.ProcessFile | construct_ai.py:1053-1107 | one document's writes are `ProcessOne`'s |
| Discovery.ProcessFiles | construct_ai.py:1053-1109 | the loop's writes are `ProcessAll`'s, in file order |
| Discovery.AnyGdoc | construct_ai.py:1047 | some file to process ends in `.gdoc`, ignoring case; `Discovery.ProcessDiscoveredFiles` uses the Docs service only then |
| Discovery.ProcessDiscoveredFiles | construct_ai.py:1028-1109 | discovery from the working directory, then the Docs service only when some file is a Google Doc, then the loop |
| Discovery.ProcessOneWrites | construct_ai.py:1054-1101 | a document gets a summary exactly when it is a supported kind (a Google Doc only with the service), reads, is not blank and summarises; what is written is the summariser's reply |
| Discovery.ProcessOneShape | construct_ai.py:1081-1101 | one document writes at most one summary, at its mirrored path inside the summaries directory |
| Discovery.WrittenCovers | construct_ai.py:1053-1101 | every document that got a summary has its summary path among the written paths |
| Discovery.RerunSkipsSummarised | construct_ai.py:1018-1024 | a document summarised in one run is not discovered again once its summary exists: the write-time and discovery-time paths agree |
| Discovery.WrittenFrom | construct_ai.py:1053-1101 | every path the loop writes is the summary path of some processed document that produced a write |
| Discovery.DotsOnlyNameRediscovered | construct_ai.py:1053-1101 | a discovered file named only dots before its extension writes nothing, and the next run discovers it again, unless another document's summary took its summary path |
| Discovery.Summarisable | construct_ai.py:1054-1076 | a document is of a supported kind (a Google Doc only with the service), reads, and is not blank |
| Discovery.ProcessOneWritesReply | construct_ai.py:1053-1097 | a summarisable document whose summariser succeeds gets exactly one write: the reply, at its write-time path |
| Discovery.SummarizerApply | construct_ai.py:1079 | the loop's summariser returns the outcome of `Reducer.Summarize` |
| Discovery.SummarizerWrites | construct_ai.py:1053-1097 | with the server summariser, a summarisable document whose summarisation succeeds gets one write holding `Reducer.Summarize`'s result |
| Discovery.SummarizerShort | construct_ai.py:1079 | a document of at most 10000 estimated tokens is summarised by the reply to its single whole-document prompt |
| Discovery.ShortDocumentSummaryWritten | construct_ai.py:1053-1097 | a short summarisable document whose single call succeeds gets that reply written, at its write-time path |

## Left out

- Google OAuth and the Docs API (`get_docs_service`, `read_gdoc_file`, lines 596-683): foreign calls. The service is a boolean: present or not.
- `get_available_models` and the streaming HTTP request of `get_llm_response` (lines 689-731): network I/O. The server is the oracle, and a failed request is its `Err`.
- `read_pdf_file` and `read_text_file` (lines 733-754): file and PDF decoding, including `errors='ignore'`. Reading is the `Discovery.Reader` parameter.
- `ensure_ai_summaries_dir`, `os.makedirs`, the writes to disk and all console output: side effects. A write is the `Written` record it produces.
- `main` (lines 1111-1152): it only prints, checks the server and calls the two passes.
- The directory walk is given as its list of entries. Its order and contents, and the set of existing summaries, are inputs.
- The prompt wording is opaque. Each fixed text is a template identifier with a placeholder rendering. What is modelled is which pieces appear, in which order, carrying which values.
- `os.path.abspath`, `relpath`, `dirname` and `join` are modelled on normalised absolute paths. Symbolic links, `..`, and target folders holding `/`, `..` or trailing slashes are not modelled. Neither is a target folder of `.`: `abspath` turns it into the root itself, which selects every directory, while `Discovery.AbsTargets` gives `<root>/.`.
- The server samples its replies (temperature 1.0, lines 706-712). The oracle is a function, so the model gives identical prompts identical replies.
- Text.Lower: lower-cases ASCII letters only, while Python's `lower()` uses Unicode case mapping.
- Python's `str.isspace`, the `\s` of the cleanup filter and what `strip()` removes are written out as one explicit set of characters (`Text.IsWhitespace`). The Unicode database is not modelled.
- Chunker.ChunkText: requires the chunk to cover the text or `0 <= overlap < size`. With `size <= overlap` the script's loop never ends. A negative overlap is not modelled; no caller passes one.
- Reducer.CreateSummary: requires a configuration safe to chunk. Every configuration the strategy table produces is one (`Strategy.StrategyChunkable`).
- The cleanup pass's missing-directory branch (lines 932-935) is not modelled. Reading or writing errors in the cleanup loop are not modelled either; the files are given with their contents.
- The `SummaryConfig` fields `detail_level` and `summary_length` are carried but never read. The script sets them and never uses them.
