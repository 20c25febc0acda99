/**
  * The three tools the question-answering agent may call on one transcript:
  * a search over its chunks, the full text (truncated), and a summary that
  * is asked of the chat model once and then remembered.  The retriever and
  * the chat model are parameters: the documents the retriever returns, and
  * a function from the prompt to the model's answer.
  */
module Tools {
  import opened Wrappers
  import opened Text
  import opened Js

  const NoResults := "No relevant content found for this query."
  const EmptyTranscript := "Transcript is empty."
  const FullMaxLen := 12000
  const FullTruncatedNote := "\n\n[...transcript truncated]"
  const SummaryMaxLen := 10000
  const SummaryTruncatedNote := "\n[...truncated]"
  const ChunkSeparator := "\n\n"

  /** One search hit as the tool prints it, `rank` counting from 1. */
  function ChunkBlock(rank: nat, content: string): string {
    "[Chunk " + NatToString(rank) + "]\n" + content
  }

  /** The hits `docs`, the first one ranked `first`. */
  function Blocks(docs: seq<Document>, first: nat): (r: seq<string>)
    ensures |r| == |docs|
  {
    seq(|docs|, i requires 0 <= i < |docs| => ChunkBlock(first + i, docs[i].pageContent))
  }

  /** The `search_transcript` tool on the documents the retriever returned. */
  function SearchTranscript(docs: seq<Document>): string {
    if docs == [] then NoResults else Join(Blocks(docs, 1), ChunkSeparator)
  }

  /** No hits give the fixed message and only then; otherwise every hit
      appears, headed by its 1-based rank in the retriever's order, and the
      output starts with the first one. */
  lemma SearchTranscriptResult(docs: seq<Document>)
    ensures (SearchTranscript(docs) == NoResults) <==> docs == []
    ensures forall i :: 0 <= i < |docs| ==> Contains(SearchTranscript(docs), ChunkBlock(i + 1, docs[i].pageContent))
    ensures docs != [] ==> StartsWith(SearchTranscript(docs), ChunkBlock(1, docs[0].pageContent))
  {
    if docs != [] {
      var bs := Blocks(docs, 1);
      JoinStarts(bs, ChunkSeparator);
      assert SearchTranscript(docs)[0] == '[';
      assert NoResults[0] == 'N';
      forall i | 0 <= i < |docs| ensures Contains(SearchTranscript(docs), ChunkBlock(i + 1, docs[i].pageContent)) {
        JoinContains(bs, ChunkSeparator, i);
      }
    }
  }

  /** Later hits are the hits of the rest, ranked from 2 on. */
  lemma SearchTranscriptCons(docs: seq<Document>)
    requires |docs| >= 2
    ensures SearchTranscript(docs) == ChunkBlock(1, docs[0].pageContent) + ChunkSeparator + Join(Blocks(docs[1..], 2), ChunkSeparator)
  {
    assert Blocks(docs, 1)[1..] == Blocks(docs[1..], 2);
  }

  /** The `get_full_transcript` tool. */
  function FullTranscript(transcriptText: string): string {
    if Trim(transcriptText) == "" then EmptyTranscript
    else if |transcriptText| > FullMaxLen then transcriptText[..FullMaxLen] + FullTruncatedNote
    else transcriptText
  }

  /** A blank transcript gives the fixed message; a short one comes back
      verbatim; a long one is cut to its first 12000 characters and marked;
      the output never exceeds the cut plus the mark. */
  lemma FullTranscriptResult(t: string)
    ensures Trim(t) == "" ==> FullTranscript(t) == EmptyTranscript
    ensures Trim(t) != "" && |t| <= FullMaxLen ==> FullTranscript(t) == t
    ensures Trim(t) != "" && |t| > FullMaxLen ==>
      |FullTranscript(t)| == FullMaxLen + |FullTruncatedNote|
      && StartsWith(t, FullTranscript(t)[..FullMaxLen])
      && EndsWith(FullTranscript(t), FullTruncatedNote)
    ensures |FullTranscript(t)| <= FullMaxLen + |FullTruncatedNote|
  {
    var r := FullTranscript(t);
    if Trim(t) != "" && |t| > FullMaxLen {
      assert r[..FullMaxLen] == t[..FullMaxLen];
      assert r[|r| - |FullTruncatedNote|..] == FullTruncatedNote;
    }
  }

  /** The transcript as the summary prompt quotes it. */
  function SummaryInput(transcriptText: string): string {
    if |transcriptText| > SummaryMaxLen then transcriptText[..SummaryMaxLen] + SummaryTruncatedNote
    else transcriptText
  }

  /** The human message of the summary request. */
  function SummaryPrompt(transcriptText: string): string {
    "Summarize this transcript:\n\n" + SummaryInput(transcriptText)
  }

  /** Up to 10000 characters the transcript is quoted whole; beyond, its
      first 10000 characters are quoted and marked as cut. */
  lemma SummaryInputResult(t: string)
    ensures |t| <= SummaryMaxLen ==> SummaryInput(t) == t
    ensures |t| > SummaryMaxLen ==>
      StartsWith(t, SummaryInput(t)[..SummaryMaxLen]) && EndsWith(SummaryInput(t), SummaryTruncatedNote)
    ensures |SummaryInput(t)| <= SummaryMaxLen + |SummaryTruncatedNote|
  {
    var r := SummaryInput(t);
    if |t| > SummaryMaxLen {
      assert r[..SummaryMaxLen] == t[..SummaryMaxLen];
      assert r[|r| - |SummaryTruncatedNote|..] == SummaryTruncatedNote;
    }
  }

  /** The chat model: its answer's text for a human message, or the error
      the call throws.  A non-string answer is already in its JSON text. */
  type ChatModel = string -> Result<string, JsError>

  /** The tools of `createTranscriptTools`, in the order it returns them. */
  datatype ToolName = Search | Full | Summary

  function Name(t: ToolName): string {
    match t
    case Search => "search_transcript"
    case Full => "get_full_transcript"
    case Summary => "get_summary"
  }

  const ToolOrder: seq<ToolName> := [Search, Full, Summary]

  /** Three tools with three different names, search first and summary last. */
  lemma ToolsReturned()
    ensures |ToolOrder| == 3
    ensures forall t: ToolName :: t in ToolOrder
    ensures forall i, j :: 0 <= i < j < |ToolOrder| ==> Name(ToolOrder[i]) != Name(ToolOrder[j])
    ensures ToolOrder[0] == Search && ToolOrder[2] == Summary
  {
    assert Name(Search)[4] == 'c' && Name(Full)[4] == 'f' && Name(Summary)[4] == 's';
    forall t: ToolName ensures t in ToolOrder {
      assert t == ToolOrder[0] || t == ToolOrder[1] || t == ToolOrder[2];
    }
  }

  /** The state behind one set of tools: the transcript they serve and the
      summary remembered by `get_summary` (`cachedSummary`, `None` for
      `null`).  `prompts` records the summary requests sent to the model. */
  class TranscriptTools {
    const transcriptText: string
    var cachedSummary: Option<string>
    ghost var prompts: seq<string>

    /** A summary is remembered when it is a non-empty string. */
    predicate Memoised()
      reads this
    {
      cachedSummary.Some? && cachedSummary.value != ""
    }

    constructor(transcriptText: string)
      ensures this.transcriptText == transcriptText
      ensures cachedSummary == None && prompts == []
    {
      this.transcriptText := transcriptText;
      cachedSummary := None;
      prompts := [];
    }

    /** The `get_summary` tool: a remembered summary is returned without a
        model call; otherwise the model is asked, and its answer remembered.
        A failed call leaves the memo as it was. */
    method GetSummary(model: ChatModel) returns (r: Result<string, JsError>)
      modifies this
      ensures old(Memoised()) ==> r == Success(old(cachedSummary).value) && prompts == old(prompts)
      ensures old(Memoised()) ==> cachedSummary == old(cachedSummary)
      ensures !old(Memoised()) ==> prompts == old(prompts) + [SummaryPrompt(transcriptText)]
      ensures !old(Memoised()) ==> r == model(SummaryPrompt(transcriptText))
      ensures !old(Memoised()) ==> cachedSummary == if r.Success? then Some(r.value) else old(cachedSummary)
    {
      if cachedSummary.Some? && cachedSummary.value != "" {
        return Success(cachedSummary.value);
      }
      var truncated := SummaryInput(transcriptText);
      var prompt := "Summarize this transcript:\n\n" + truncated;
      prompts := prompts + [prompt];
      r := model(prompt);
      if r.Success? {
        cachedSummary := Some(r.value);
      }
    }
  }

  /** Once a call has produced a non-empty summary, a later call returns it
      and asks the model nothing, whatever the model would now answer. */
  method SummaryRemembered(tools: TranscriptTools, first: ChatModel, second: ChatModel)
    returns (a: Result<string, JsError>, b: Result<string, JsError>)
    modifies tools
    ensures !old(tools.Memoised()) && a.Success? && a.value != "" ==> b == a && tools.prompts == old(tools.prompts) + [SummaryPrompt(tools.transcriptText)]
    ensures old(tools.Memoised()) ==> a == b && tools.prompts == old(tools.prompts)
  {
    a := tools.GetSummary(first);
    b := tools.GetSummary(second);
  }
}
