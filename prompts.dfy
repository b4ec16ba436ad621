/**
 * Prompt assembly (construct_ai.py, build_structure_prompt,
 * build_summary_prompt and the prompt strings built in extract_structure and
 * create_summary).
 *
 * Every prompt is an f-string: a sequence of fixed template text and
 * interpolated values.  A prompt is modelled as exactly that sequence of
 * pieces; the wording of the fixed text is opaque (a Template identifier
 * with a placeholder rendering); what is modelled is which pieces appear,
 * in which order, carrying which values.  Render gives the string the
 * oracle receives.
 */
module Prompts {
  import opened Strategy
  import opened Text

  /** The fixed texts of the script's prompts. */
  datatype Template =
    | StructureHead(tier: Tier)       // base instruction and task line, up to the first section count
    | StructureMiddle(tier: Tier)     // between the two section counts
    | StructureTail(tier: Tier)       // after the second section count
    | AnalyzeLabel                    // "Document to analyze:" line of extract_structure
    | SummaryBody(tier: Tier)         // summary instructions, up to the context section
    | SummaryClosing(tier: Tier)      // the "DOCUMENT TO ANALYZE" closing after the context section
    | StructureHeading                // heading of the structure context section
    | PreviousHeading                 // heading of the previous-summary context section
    | PreviousInstruction             // "do not repeat" instruction after the previous summary
    | WholeDocumentLabel              // "Document to summarize:" line of the single-call path
    | ChunkLabel                      // "Text to process:" line of the incremental path
    | UpdateSuffix                    // closing request when a running summary exists
    | FirstSectionSuffix              // closing request for the first section
    | CompressInstruction             // the compression request

  /** What an interpolated value is. */
  datatype Role = DocumentText | Structure | PreviousSummary | CurrentChunk | SummaryToCompress

  datatype Piece = Lit(template: Template) | Slot(role: Role, text: string) | Count(n: int)

  type Prompt = seq<Piece>

  /** Placeholder rendering of the opaque template texts.  The labels and
      suffixes are the short lines the script uses; the long instruction
      bodies are stand-ins. */
  function TemplateText(t: Template): string
  {
    match t
    case StructureHead(tier) => "[structure instructions: " + TierName(tier) + "; up to "
    case StructureMiddle(tier) => " main sections; exactly "
    case StructureTail(tier) => " main sections]"
    case AnalyzeLabel => "\n\nDocument to analyze:\n"
    case SummaryBody(tier) => "[summary instructions: " + TierName(tier) + "]"
    case SummaryClosing(tier) => "\n\n[closing: document to analyze]\n\n"
    case StructureHeading => "\n\nDOCUMENT STRUCTURE TO FOLLOW:\n"
    case PreviousHeading => "\n\nPREVIOUS CONTENT ALREADY SUMMARIZED:\n"
    case PreviousInstruction => "\n\n[instruction: build upon the previous summary, do not repeat it]"
    case WholeDocumentLabel => "\n\nDocument to summarize:\n"
    case ChunkLabel => "\n\nText to process:\n"
    case UpdateSuffix => "\n\nPlease update and expand the previous summary with information from this new text section."
    case FirstSectionSuffix => "\n\nThis is the first section. Create an initial summary."
    case CompressInstruction => "[instruction: compress this summary to its essential information]:\n\n"
  }

  function TierName(t: Tier): string
  {
    match t
    case Short => "short"
    case Medium => "medium"
    case Long => "long"
  }

  function Digits(n: nat): (s: string)
    ensures |s| >= 1
    decreases n
  {
    var d := ['0', '1', '2', '3', '4', '5', '6', '7', '8', '9'][n % 10];
    if n < 10 then [d] else Digits(n / 10) + [d]
  }

  /** Python's str() of an int. */
  function Decimal(n: int): string
  {
    if n < 0 then "-" + Digits(-n) else Digits(n)
  }

  function PieceText(p: Piece): string
  {
    match p
    case Lit(t) => TemplateText(t)
    case Slot(_, text) => text
    case Count(n) => Decimal(n)
  }

  /** The string the oracle receives. */
  function Render(p: Prompt): (s: string)
  {
    if p == [] then "" else PieceText(p[0]) + Render(p[1..])
  }

  lemma {:induction false} RenderAppend(a: Prompt, b: Prompt)
    ensures Render(a + b) == Render(a) + Render(b)
  {
    if a == [] {
      assert a + b == b;
    } else {
      assert (a + b)[1..] == a[1..] + b;
      RenderAppend(a[1..], b);
    }
  }

  /** The roles of the interpolated values, in prompt order. */
  function Roles(p: Prompt): seq<Role>
  {
    if p == [] then []
    else (if p[0].Slot? then [p[0].role] else []) + Roles(p[1..])
  }

  /** The values interpolated in the given role, in prompt order. */
  function SlotsOf(p: Prompt, role: Role): seq<string>
  {
    if p == [] then []
    else (if p[0].Slot? && p[0].role == role then [p[0].text] else []) + SlotsOf(p[1..], role)
  }

  lemma {:induction false} RolesAppend(a: Prompt, b: Prompt)
    ensures Roles(a + b) == Roles(a) + Roles(b)
  {
    if a == [] {
      assert a + b == b;
    } else {
      var h := if a[0].Slot? then [a[0].role] else [];
      assert (a + b)[0] == a[0] && (a + b)[1..] == a[1..] + b;
      RolesAppend(a[1..], b);
      assert Roles(a + b) == h + (Roles(a[1..]) + Roles(b));
    }
  }

  lemma {:induction false} SlotsOfAppend(a: Prompt, b: Prompt, role: Role)
    ensures SlotsOf(a + b, role) == SlotsOf(a, role) + SlotsOf(b, role)
  {
    if a == [] {
      assert a + b == b;
    } else {
      var h := if a[0].Slot? && a[0].role == role then [a[0].text] else [];
      assert (a + b)[0] == a[0] && (a + b)[1..] == a[1..] + b;
      SlotsOfAppend(a[1..], b, role);
      assert SlotsOf(a, role) == h + SlotsOf(a[1..], role);
      assert SlotsOf(a + b, role) == h + (SlotsOf(a[1..], role) + SlotsOf(b, role));
    }
  }

  /** A role that no slot of the prompt has gets no values. */
  lemma {:induction false} SlotsOfAbsent(p: Prompt, role: Role)
    requires role !in Roles(p)
    ensures SlotsOf(p, role) == []
  {
    if p != [] {
      assert Roles(p) == (if p[0].Slot? then [p[0].role] else []) + Roles(p[1..]);
      SlotsOfAbsent(p[1..], role);
    }
  }

  function RoleOf(x: Piece): seq<Role>
  {
    if x.Slot? then [x.role] else []
  }

  function SlotOf(x: Piece, role: Role): seq<string>
  {
    if x.Slot? && x.role == role then [x.text] else []
  }

  lemma PiecesOne(a: Piece)
    ensures Roles([a]) == RoleOf(a)
    ensures forall role :: SlotsOf([a], role) == SlotOf(a, role)
  {
    assert [a][1..] == [];
  }

  lemma PiecesTwoSlots(a: Piece, b: Piece, role: Role)
    ensures SlotsOf([a, b], role) == SlotOf(a, role) + SlotOf(b, role)
  {
    assert [a, b][0] == a && [a, b][1..] == [b];
    PiecesOne(b);
    assert SlotsOf([a, b], role) == SlotOf(a, role) + SlotsOf([b], role);
  }

  lemma PiecesTwo(a: Piece, b: Piece)
    ensures Roles([a, b]) == RoleOf(a) + RoleOf(b)
    ensures forall role :: SlotsOf([a, b], role) == SlotOf(a, role) + SlotOf(b, role)
  {
    assert [a, b][0] == a && [a, b][1..] == [b];
    PiecesOne(b);
    assert Roles([a, b]) == RoleOf(a) + Roles([b]);
    forall role: Role
      ensures SlotsOf([a, b], role) == SlotOf(a, role) + SlotOf(b, role)
    {
      PiecesTwoSlots(a, b, role);
    }
  }

  lemma PiecesThreeRoles(a: Piece, b: Piece, c: Piece)
    ensures Roles([a, b, c]) == RoleOf(a) + RoleOf(b) + RoleOf(c)
  {
    assert [a, b, c][0] == a && [a, b, c][1..] == [b, c];
    PiecesTwo(b, c);
    assert Roles([a, b, c]) == RoleOf(a) + Roles([b, c]);
  }

  lemma PiecesThreeSlots(a: Piece, b: Piece, c: Piece, role: Role)
    ensures SlotsOf([a, b, c], role) == SlotOf(a, role) + SlotOf(b, role) + SlotOf(c, role)
  {
    var x, y, z := SlotOf(a, role), SlotOf(b, role), SlotOf(c, role);
    assert [a, b, c][0] == a && [a, b, c][1..] == [b, c];
    PiecesTwoSlots(b, c, role);
    assert SlotsOf([a, b, c], role) == x + SlotsOf([b, c], role);
    assert x + (y + z) == x + y + z;
  }

  lemma PiecesThree(a: Piece, b: Piece, c: Piece)
    ensures Roles([a, b, c]) == RoleOf(a) + RoleOf(b) + RoleOf(c)
    ensures forall role :: SlotsOf([a, b, c], role) == SlotOf(a, role) + SlotOf(b, role) + SlotOf(c, role)
  {
    PiecesThreeRoles(a, b, c);
    forall role: Role
      ensures SlotsOf([a, b, c], role) == SlotOf(a, role) + SlotOf(b, role) + SlotOf(c, role)
    {
      PiecesThreeSlots(a, b, c, role);
    }
  }

  /** The instructions of the structure prompt interpolate no values. */
  lemma StructureInstructionsNoSlots(c: SummaryConfig)
    ensures Roles(StructureInstructions(c)) == []
    ensures forall role :: SlotsOf(StructureInstructions(c), role) == []
  {
    var a, b := Lit(StructureHead(c.documentType)), Count(c.maxSections);
    var d, e, f := Lit(StructureMiddle(c.documentType)), Count(c.maxSections), Lit(StructureTail(c.documentType));
    assert StructureInstructions(c) == [a, b] + [d, e, f];
    PiecesTwo(a, b);
    PiecesThree(d, e, f);
    RolesAppend([a, b], [d, e, f]);
    forall role: Role
      ensures SlotsOf(StructureInstructions(c), role) == []
    {
      SlotsOfAppend([a, b], [d, e, f], role);
    }
  }

  /** The instruction part of build_structure_prompt: the tier's template with
      the section count interpolated twice. */
  function StructureInstructions(c: SummaryConfig): (p: Prompt)
  {
    [Lit(StructureHead(c.documentType)), Count(c.maxSections),
     Lit(StructureMiddle(c.documentType)), Count(c.maxSections),
     Lit(StructureTail(c.documentType))]
  }

  /** The prompt of extract_structure: the instructions and the whole text. */
  function StructurePrompt(c: SummaryConfig, text: string): (p: Prompt)
  {
    StructureInstructions(c) + [Lit(AnalyzeLabel), Slot(DocumentText, text)]
  }

  /** `context_section` of build_summary_prompt: the structure section when a
      structure is given, then the previous-summary section when a previous
      summary is given. */
  function ContextSection(structure: string, previous: string): (p: Prompt)
  {
    (if structure != "" then [Lit(StructureHeading), Slot(Structure, structure)] else [])
    + (if previous != "" then [Lit(PreviousHeading), Slot(PreviousSummary, previous), Lit(PreviousInstruction)] else [])
  }

  /** build_summary_prompt: the tier's instructions around the context section. */
  function SummaryPrompt(c: SummaryConfig, structure: string, previous: string): (p: Prompt)
  {
    [Lit(SummaryBody(c.documentType))] + ContextSection(structure, previous) + [Lit(SummaryClosing(c.documentType))]
  }

  /** The single-call prompt of create_summary (no previous summary). */
  function WholeDocumentPrompt(c: SummaryConfig, structure: string, text: string): (p: Prompt)
  {
    SummaryPrompt(c, structure, "") + [Lit(WholeDocumentLabel), Slot(DocumentText, text)]
  }

  /** The per-chunk prompt of create_summary; the closing request depends on
      whether the running summary is empty, not on the chunk's position. */
  function ChunkPrompt(c: SummaryConfig, structure: string, running: string, chunk: string): (p: Prompt)
  {
    SummaryPrompt(c, structure, running)
    + [Lit(ChunkLabel), Slot(CurrentChunk, chunk), Lit(if running != "" then UpdateSuffix else FirstSectionSuffix)]
  }

  /** The compression prompt of create_summary. */
  function CompressPrompt(running: string): (p: Prompt)
  {
    [Lit(CompressInstruction), Slot(SummaryToCompress, running)]
  }

  predicate IsCompressPrompt(p: Prompt)
  {
    |p| > 0 && p[0] == Lit(CompressInstruction)
  }

  predicate IsChunkPrompt(p: Prompt)
  {
    |p| > 0 && p[0].Lit? && p[0].template.SummaryBody? && CurrentChunk in Roles(p)
  }

  /** The running summary a prompt carries: its previous-summary value, or
      "" when it has no previous-summary section. */
  function PreviousOf(p: Prompt): string
  {
    var prev := SlotsOf(p, PreviousSummary);
    if prev == [] then "" else prev[0]
  }

  function ChunksOf(p: Prompt): seq<string>
  {
    SlotsOf(p, CurrentChunk)
  }

  lemma ContextSectionSlots(structure: string, previous: string)
    ensures Roles(ContextSection(structure, previous))
            == (if structure != "" then [Structure] else []) + (if previous != "" then [PreviousSummary] else [])
    ensures forall role :: (SlotsOf(ContextSection(structure, previous), role)
              == (if structure != "" then SlotOf(Slot(Structure, structure), role) else [])
               + (if previous != "" then SlotOf(Slot(PreviousSummary, previous), role) else []))
  {
    var s: Prompt := if structure != "" then [Lit(StructureHeading), Slot(Structure, structure)] else [];
    var q: Prompt := if previous != "" then [Lit(PreviousHeading), Slot(PreviousSummary, previous), Lit(PreviousInstruction)] else [];
    PiecesTwo(Lit(StructureHeading), Slot(Structure, structure));
    PiecesThree(Lit(PreviousHeading), Slot(PreviousSummary, previous), Lit(PreviousInstruction));
    RolesAppend(s, q);
    forall role: Role
      ensures SlotsOf(s + q, role) == SlotsOf(s, role) + SlotsOf(q, role)
    {
      SlotsOfAppend(s, q, role);
    }
  }

  /** Which sections a summary prompt holds and in which order: the structure
      section exactly when the structure is non-empty, the previous-summary
      section exactly when the previous summary is non-empty, structure first;
      and each section carries its value unchanged. */
  lemma SummaryPromptSections(c: SummaryConfig, structure: string, previous: string)
    ensures var p := SummaryPrompt(c, structure, previous);
      && Roles(p) == (if structure != "" then [Structure] else []) + (if previous != "" then [PreviousSummary] else [])
      && SlotsOf(p, Structure) == (if structure != "" then [structure] else [])
      && SlotsOf(p, PreviousSummary) == (if previous != "" then [previous] else [])
      && SlotsOf(p, CurrentChunk) == [] && SlotsOf(p, DocumentText) == []
      && PreviousOf(p) == previous
  {
    var ctx := ContextSection(structure, previous);
    var head: Prompt := [Lit(SummaryBody(c.documentType))];
    var tail: Prompt := [Lit(SummaryClosing(c.documentType))];
    ContextSectionSlots(structure, previous);
    PiecesOne(head[0]);
    PiecesOne(tail[0]);
    RolesAppend(head, ctx);
    RolesAppend(head + ctx, tail);
    forall role: Role
      ensures SlotsOf(SummaryPrompt(c, structure, previous), role) == SlotsOf(ctx, role)
    {
      SlotsOfAppend(head, ctx, role);
      SlotsOfAppend(head + ctx, tail, role);
    }
  }

  lemma ChunkPromptSlots(c: SummaryConfig, structure: string, running: string, chunk: string)
    ensures var p := ChunkPrompt(c, structure, running, chunk);
      && Roles(p) == (if structure != "" then [Structure] else []) + (if running != "" then [PreviousSummary] else []) + [CurrentChunk]
      && SlotsOf(p, Structure) == (if structure != "" then [structure] else [])
      && SlotsOf(p, PreviousSummary) == (if running != "" then [running] else [])
      && ChunksOf(p) == [chunk]
  {
    var sp := SummaryPrompt(c, structure, running);
    var a, b, d := Lit(ChunkLabel), Slot(CurrentChunk, chunk), Lit(if running != "" then UpdateSuffix else FirstSectionSuffix);
    assert ChunkPrompt(c, structure, running, chunk) == sp + [a, b, d];
    SummaryPromptSections(c, structure, running);
    PiecesThree(a, b, d);
    RolesAppend(sp, [a, b, d]);
    SlotsOfAppend(sp, [a, b, d], Structure);
    SlotsOfAppend(sp, [a, b, d], PreviousSummary);
    SlotsOfAppend(sp, [a, b, d], CurrentChunk);
  }

  /** The sections of a chunk prompt: context sections as above, then the
      chunk; the update request exactly when the running summary is
      non-empty, the first-section request exactly when it is empty. */
  lemma ChunkPromptSections(c: SummaryConfig, structure: string, running: string, chunk: string)
    ensures var p := ChunkPrompt(c, structure, running, chunk);
      && Roles(p) == (if structure != "" then [Structure] else []) + (if running != "" then [PreviousSummary] else []) + [CurrentChunk]
      && SlotsOf(p, Structure) == (if structure != "" then [structure] else [])
      && PreviousOf(p) == running
      && ChunksOf(p) == [chunk]
      && (p[|p| - 1] == Lit(UpdateSuffix) <==> running != "")
      && (p[|p| - 1] == Lit(FirstSectionSuffix) <==> running == "")
      && IsChunkPrompt(p) && !IsCompressPrompt(p)
  {
    var p := ChunkPrompt(c, structure, running, chunk);
    ChunkPromptSlots(c, structure, running, chunk);
    assert p[0] == Lit(SummaryBody(c.documentType));
    assert p[|p| - 1] == Lit(if running != "" then UpdateSuffix else FirstSectionSuffix);
  }

  /** The two closing requests tell each other apart at the end of any text. */
  lemma SuffixesDistinct(front: string)
    ensures var u, f := TemplateText(UpdateSuffix), TemplateText(FirstSectionSuffix);
      && EndsWith(front + u, u) && !EndsWith(front + u, f)
      && EndsWith(front + f, f) && !EndsWith(front + f, u)
  {
    var u, f := TemplateText(UpdateSuffix), TemplateText(FirstSectionSuffix);
    var su, sf := front + u, front + f;
    assert su[|su| - |u|..] == u;
    assert sf[|sf| - |f|..] == f;
    assert su[|su| - 2] == u[|u| - 2] == 'n';
    assert sf[|sf| - 2] == f[|f| - 2] == 'y';
    EndsWithAt(su, f, 2);
    EndsWithAt(sf, u, 2);
  }

  /** Rendering a prompt whose last piece is a fixed text. */
  lemma RenderLastLit(front: Prompt, t: Template)
    ensures Render(front + [Lit(t)]) == Render(front) + TemplateText(t)
  {
    RenderAppend(front, [Lit(t)]);
    assert [Lit(t)][1..] == [];
  }

  /** On the rendered string: the prompt ends with the update request exactly
      when the running summary is non-empty. */
  lemma ChunkPromptRenderedSuffix(c: SummaryConfig, structure: string, running: string, chunk: string)
    ensures var s := Render(ChunkPrompt(c, structure, running, chunk));
      && (EndsWith(s, TemplateText(UpdateSuffix)) <==> running != "")
      && (EndsWith(s, TemplateText(FirstSectionSuffix)) <==> running == "")
  {
    var suffix := if running != "" then UpdateSuffix else FirstSectionSuffix;
    var front := SummaryPrompt(c, structure, running) + [Lit(ChunkLabel), Slot(CurrentChunk, chunk)];
    assert ChunkPrompt(c, structure, running, chunk) == front + [Lit(suffix)];
    RenderLastLit(front, suffix);
    SuffixesDistinct(Render(front));
  }

  /** The single-call prompt carries the structure as its only context and the
      whole text as the document. */
  lemma WholeDocumentPromptSections(c: SummaryConfig, structure: string, text: string)
    ensures var p := WholeDocumentPrompt(c, structure, text);
      && Roles(p) == (if structure != "" then [Structure] else []) + [DocumentText]
      && SlotsOf(p, DocumentText) == [text]
      && PreviousOf(p) == ""
      && !IsCompressPrompt(p) && !IsChunkPrompt(p)
  {
    var sp := SummaryPrompt(c, structure, "");
    var a, b := Lit(WholeDocumentLabel), Slot(DocumentText, text);
    assert WholeDocumentPrompt(c, structure, text) == sp + [a, b];
    SummaryPromptSections(c, structure, "");
    PiecesTwo(a, b);
    RolesAppend(sp, [a, b]);
    SlotsOfAppend(sp, [a, b], DocumentText);
    SlotsOfAppend(sp, [a, b], PreviousSummary);
  }

  /** The structure prompt carries the whole text and nothing else. */
  lemma StructurePromptSections(c: SummaryConfig, text: string)
    ensures var p := StructurePrompt(c, text);
      && Roles(p) == [DocumentText]
      && SlotsOf(p, DocumentText) == [text]
      && PreviousOf(p) == ""
      && !IsCompressPrompt(p) && !IsChunkPrompt(p)
  {
    var si := StructureInstructions(c);
    var a, b := Lit(AnalyzeLabel), Slot(DocumentText, text);
    StructureInstructionsNoSlots(c);
    PiecesTwo(a, b);
    RolesAppend(si, [a, b]);
    SlotsOfAppend(si, [a, b], DocumentText);
    SlotsOfAppend(si, [a, b], PreviousSummary);
  }

  /** The compression prompt carries just the summary to compress. */
  lemma CompressPromptSections(running: string)
    ensures var p := CompressPrompt(running);
      && Roles(p) == [SummaryToCompress]
      && SlotsOf(p, SummaryToCompress) == [running] && SlotsOf(p, Structure) == []
      && PreviousOf(p) == "" && ChunksOf(p) == []
      && IsCompressPrompt(p) && !IsChunkPrompt(p)
  {
    PiecesTwo(Lit(CompressInstruction), Slot(SummaryToCompress, running));
  }
}
