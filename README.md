# long-story-short-ai, modelled in Dafny

long-story-short-ai turns a recording into something one can question. A user uploads an
audio or video file, or gives a link. The API server then queues an ingestion job. A
background worker extracts or downloads the audio and transcribes it. It then splits the
transcript into chunks, indexes them, and builds an agent that answers questions with
three tools: transcript search, the full transcript and a summary. Answers come from a
hybrid retriever. It fuses a vector search and a BM25 keyword search by reciprocal rank,
and it expands the query with configured synonyms first. A React client uploads, polls
until the job is ready, previews the transcript or summary, offers a chat, and keeps a
local history of past analyses.

This project models the logic of that system in Dafny, one module per source file:

- `Retrieval` (query normalisation, tokenisation and expansion), `DocFilter` (metadata
  filter and document fingerprint), `Lru` (the retriever's LRU cache, a class) and `Hybrid`
  (reciprocal-rank fusion and the `HybridRetriever` class) cover `retrieval.ts`.
- `Ingestion` models the ingestion service as transition functions over an explicit state.
  The state holds the record objects, the id map, the cancelled set, the workers' phases
  and the disk. `Service` is the `IngestionService` class whose methods update that state
  in place and are proved to follow the transitions.
- `Chunking`, `Indexing`, `Transcription`, `DocumentLoaders`, `Tools`, `Agent`,
  `Evaluation` and `Cli` cover the rest of the RAG core.
- `IngestionsController`, `IngestionsRoutes`, `AuthSid` and `YtDlp` cover the API server's
  handlers, upload rules, session cookie and downloader policy.
- `HistoryStorage`, `RagApi`, `Language`, `UseIngestion`, `UsePreview` and
  `UseMainController` cover the client's storage, API helpers, translations and state
  hooks. The hooks are classes whose methods change their state.
- `Wrappers` (`Option`, `Result`), `Text` (JavaScript string operations) and `Js` (values,
  JSON, errors and objects with ordered keys) are shared support.

Every external capability is a parameter of the operation that uses it: the chat and
embedding models, the sub-indexes, the splitter, `JSON.parse`, the file system and
process calls. A long-running worker is a sequence of steps, and any request may run
between two of them. Some steps hold several `await`s of the source, and the model lets no
request run between those.

## Model

| member | source | states |
|---|---|---|
| Retrieval.NormalizeQueryNormalized | server/rag-core/src/retrieval.ts:7-9 | a normalised query has no leading, trailing or doubled whitespace and is no longer than the input |
| Retrieval.NormalizeFixed | server/rag-core/src/retrieval.ts:7-9 | an already normalised query is returned unchanged |
| Retrieval.NormalizeIdempotent | server/rag-core/src/retrieval.ts:7-9 | normalising twice is normalising once |
| Retrieval.TokenizeQuery | server/rag-core/src/retrieval.ts:11-18 | every token is a non-empty word of lower-case letters, digits and apostrophes |
| Retrieval.TokenizeEmpty | server/rag-core/src/retrieval.ts:11-18 | there are no tokens exactly when no character of the query, lower-cased, is a token character |
| Retrieval.AsStringArray | server/rag-core/src/retrieval.ts:32-38 | anything but an array yields no phrases; what is kept are non-empty normalised strings |
| Retrieval.NormalizedStringsKeeps | server/rag-core/src/retrieval.ts:32-38 | a JSON array of phrases that are already non-empty and normalised is read back exactly |
| Retrieval.LastSynonymsResult | server/rag-core/src/retrieval.ts:43-47 | a key finds a synonym list exactly when some entry whose lower-cased key it is yields phrases, and then it is the list of the last such entry |
| Retrieval.CollectSynonymsGet | server/rag-core/src/retrieval.ts:43-47 | after the loop each key holds the list of the last entry that gives it one, and keeps its earlier list when none does |
| Retrieval.AsStringArrayRecordGet | server/rag-core/src/retrieval.ts:40-49 | the record read from an object maps each lower-cased key to the phrases of the last entry under it that yields any, and holds nothing else; any other value gives the empty record |
| Retrieval.MaxExtraPhrases | server/rag-core/src/retrieval.ts:60-65 | a JSON number gives its floor, clamped at 0; anything else gives the default 8 |
| Retrieval.LoadQueryExpansionsConfig | server/rag-core/src/retrieval.ts:51-74 | an explicit configuration wins; no path, an unreadable file or `null` give the defaults; a loaded file gives the limit `MaxExtraPhrases` of its `maxExtraPhrases` and the records read from its `tokenSynonyms` and `phraseSynonyms` |
| Retrieval.RemoveApostrophesAppend | server/rag-core/src/retrieval.ts:79 | removing apostrophes works character by character: an apostrophe is dropped, any other character is kept in place, and the characters lose exactly their apostrophes |
| Retrieval.TokenVariants | server/rag-core/src/retrieval.ts:76-82 | the variants are distinct and non-empty; they include the token, the token without apostrophes and, for a plural, the singular |
| Retrieval.AddTokenRulesExact | server/rag-core/src/retrieval.ts:93-99 | the token phase adds exactly the synonyms of the variants of the tokens, and nothing else |
| Retrieval.AddPhraseRulesExact | server/rag-core/src/retrieval.ts:101-106 | the phrase phase adds exactly the synonyms of the rules whose needle occurs in the padded query, and nothing else |
| Retrieval.BlankPhraseIgnored | server/rag-core/src/retrieval.ts:102-103 | a rule whose phrase normalises to nothing never fires |
| Retrieval.ExtraPhrases | server/rag-core/src/retrieval.ts:91-106 | the collected phrases are distinct and the token rules' phrases come first |
| Retrieval.ExtraPhrasesExact | server/rag-core/src/retrieval.ts:88-106 | a phrase is collected exactly when a variant of a query token or a firing phrase rule lists it |
| Retrieval.LimitedPhrases | server/rag-core/src/retrieval.ts:108 | at most `maxExtraPhrases` phrases are used, a prefix of the collected ones, all of them when the limit allows |
| Retrieval.ExpansionNormalized | server/rag-core/src/retrieval.ts:84-111 | the expanded query is itself normalised |
| Retrieval.ExpansionExtendsQuery | server/rag-core/src/retrieval.ts:84-111 | the expanded query starts with the normalised query |
| Retrieval.NoRuleNoExpansion | server/rag-core/src/retrieval.ts:93-110 | when no variant of a query token has synonyms and no firing phrase rule lists any, the expanded query is exactly the normalised query |
| Retrieval.ExpansionUnchangedIff | server/rag-core/src/retrieval.ts:108-110 | with loaded rules, the expanded query equals the normalised query exactly when no phrase is kept |
| Retrieval.ExpansionContains | server/rag-core/src/retrieval.ts:108-110 | every phrase kept by the limit occurs in the expanded query |
| Retrieval.TokenSynonymUsed | server/rag-core/src/retrieval.ts:93-110 | a synonym of a query token is collected, and occurs in the expanded query when the limit keeps every collected phrase (so `{"car": ["automobile"]}` puts "automobile" into the expansion of a query with the token "car") |
| Retrieval.ExpandQuery | server/rag-core/src/retrieval.ts:84-111 | the imperative `expandQuery` gives the expansion with the synonym lookup as written: it throws when a token variant names an inherited `Object.prototype` property that the configuration does not define, and otherwise returns the expanded query |
| Retrieval.TokenPhase | server/rag-core/src/retrieval.ts:93-99 | the nested loops over tokens and variants collect the token rules' phrases in order, and the first lookup that throws ends the phase with that error |
| Retrieval.PhrasePhase | server/rag-core/src/retrieval.ts:101-106 | the loop over phrase rules computes the phrase phase |
| Retrieval.ExpansionAgrees | server/rag-core/src/retrieval.ts:95-97 | when no token variant names an inherited object property, the source's lookup and the corrected one give the same expansion |
| Retrieval.ConstructorQueryThrows | server/rag-core/src/retrieval.ts:95-97 | the query "constructor" makes the lookup as written throw under the default configuration |
| Lru.Lookup | server/rag-core/src/retrieval.ts:152-153 | a key is found exactly when an entry has it, and then with that entry's value |
| Lru.Remove | server/rag-core/src/retrieval.ts:155 | deleting a key keeps exactly the other entries |
| Lru.SetBounded | server/rag-core/src/retrieval.ts:160-167 | `set` keeps the keys distinct and the size within capacity |
| Lru.SetMostRecent | server/rag-core/src/retrieval.ts:160-167 | after `set(k, v)` the key holds `v` and is the most recently used |
| Lru.SetEvicts | server/rag-core/src/retrieval.ts:160-167 | a new key in a full cache evicts exactly the oldest entry; otherwise nothing is evicted |
| Lru.SetOthers | server/rag-core/src/retrieval.ts:160-167 | `set` leaves every other key's value unless that key was the evicted oldest one |
| Lru.GetMostRecent | server/rag-core/src/retrieval.ts:152-158 | `get` of a present key moves it to the most recent place and changes no value |
| Lru.LruCache.constructor | server/rag-core/src/retrieval.ts:147-150 | the cache starts empty with a capacity of at least one |
| Lru.LruCache.Get | server/rag-core/src/retrieval.ts:152-158 | returns the stored value and refreshes the key; a miss changes nothing |
| Lru.LruCache.Set | server/rag-core/src/retrieval.ts:160-167 | the entries become the specified result of `set`, and the key holds the new value |
| DocFilter.ApplyMetadataFilter | server/rag-core/src/retrieval.ts:113-131 | a document passes exactly when every filter entry equals its metadata value; no filter passes everything |
| DocFilter.PublicOnlyAccepts | server/rag-core/src/retrieval.ts:113-131 | the `access_level: "public"` filter accepts exactly the public documents |
| DocFilter.SortKeys | server/rag-core/src/retrieval.ts:136-137 | sorting the metadata keys is a permutation of them |
| DocFilter.SortKeysAscending | server/rag-core/src/retrieval.ts:136-137 | the sorted keys are in ascending string order |
| DocFilter.Preview | server/rag-core/src/retrieval.ts:134 | the preview is the first 100 characters, or the whole content when it is shorter |
| DocFilter.DocKeyPreview | server/rag-core/src/retrieval.ts:133-141 | equal fingerprints imply the same first 100 characters of content |
| DocFilter.DocKeyOrderIndependent | server/rag-core/src/retrieval.ts:133-141 | the fingerprint depends on the metadata's values, not on the order its keys were inserted |
| Hybrid.RankSumAbsent | server/rag-core/src/retrieval.ts:261-278 | a fingerprint that no document of a list has gains nothing from that list |
| Hybrid.RankSumPositive | server/rag-core/src/retrieval.ts:261-278 | with a positive weight, a fingerprint that occurs in a list gains a positive score |
| Hybrid.AddScoreScore | server/rag-core/src/retrieval.ts:264-268 | adding to one entry raises only that entry's score, by exactly the amount added |
| Hybrid.AccumulateScore | server/rag-core/src/retrieval.ts:261-278 | one `forEach` over a ranked list raises each fingerprint's score by its weighted reciprocal ranks `w / (60 + rank + 1)` summed over that list |
| Hybrid.AccumulateKeys | server/rag-core/src/retrieval.ts:261-278 | the scored entries keep their keys, gain exactly the list's fingerprints, and stay free of duplicates |
| Hybrid.VectorDocMap | server/rag-core/src/retrieval.ts:255-259 | the map holds exactly the fingerprints of the vector results |
| Hybrid.VectorDocMapValues | server/rag-core/src/retrieval.ts:255-259 | a fingerprint maps to the indexed document with that fingerprint when the index has one, and otherwise to the last vector result with it |
| Hybrid.FusedScores | server/rag-core/src/retrieval.ts:261-278 | after both loops there is one entry per fingerprint of either list, scored with the sum of its weighted reciprocal ranks in both |
| Hybrid.SortByScore | server/rag-core/src/retrieval.ts:282-283 | the sort is a permutation of the entries, in descending score order |
| Hybrid.TopDocs | server/rag-core/src/retrieval.ts:284-285 | the first `k` entries' documents, in ranking order |
| Hybrid.FilterDocs | server/rag-core/src/retrieval.ts:241-253 | the kept documents are exactly those that pass the metadata filter |
| Hybrid.RankingSpec | server/rag-core/src/retrieval.ts:241-285 | the fused ranking is best first, holds each fingerprint of the filtered lists once and scores it with its weighted reciprocal ranks |
| Hybrid.UncachedTopK | server/rag-core/src/retrieval.ts:282-285 | at most `k` documents are returned and each scores at least as much as every fused document left out |
| Hybrid.IndexDocumentsKeys | server/rag-core/src/retrieval.ts:216-220 | the fingerprint index maps exactly the fingerprints of the documents |
| Hybrid.IndexDocumentsLast | server/rag-core/src/retrieval.ts:216-220 | a fingerprint shared by several documents maps to the last of them |
| Hybrid.HybridRetriever.constructor | server/rag-core/src/retrieval.ts:190-221 | an empty cache of 256 entries, the loaded expansion configuration, a BM25 index of `k * 4` results and the fingerprint index of the documents |
| Hybrid.HybridRetriever.GetRelevantDocuments | server/rag-core/src/retrieval.ts:223-289 | a query whose expansion throws rejects with that error before the cache or any search is touched; otherwise a cached list, even an empty one, is returned without searching, and a miss runs both searches and caches a successful result under the expanded query's key |
| Hybrid.HybridRetriever.Search | server/rag-core/src/retrieval.ts:235-285 | the uncached search returns the top `k` of the fused ranking; a failed vector search stops before the BM25 search |
| Hybrid.HybridRetriever.BuildVectorDocMap | server/rag-core/src/retrieval.ts:255-259 | the loop builds the specified fingerprint-to-document map |
| Hybrid.ScoreList | server/rag-core/src/retrieval.ts:261-278 | one `forEach` loop computes the specified score accumulation |
| DocumentLoaders.InferAudioMimeType | server/rag-core/src/documentLoaders.ts:31-40 | each of the six known extensions, in any letter case, maps to its MIME type (both directions), and every other extension to "application/octet-stream" |
| DocumentLoaders.InferUpperCase | server/rag-core/src/documentLoaders.ts:31-40 | "uploads/talk.MP3" is recognised as "audio/mpeg" |
| DocumentLoaders.InferDotFile | server/rag-core/src/documentLoaders.ts:31-40 | a dot file such as "audio/.ogg" has no extension and gets the generic type |
| DocumentLoaders.CacheHitSkipsProvider | server/rag-core/src/documentLoaders.ts:49-51 | with an existing cache file and no forced recompute, the result depends neither on the key nor on the provider, and nothing is written |
| DocumentLoaders.RecomputeCallsProvider | server/rag-core/src/documentLoaders.ts:52-64 | without a usable cache the provider is sent the file's base name (or "audio") and its inferred MIME type |
| DocumentLoaders.RecomputeDocument | server/rag-core/src/documentLoaders.ts:58-94 | with a key, transcription fails exactly when the provider does; otherwise one document holds the provider's text trimmed and names "whisper-1" |
| DocumentLoaders.RecomputeWritesCache | server/rag-core/src/documentLoaders.ts:66-81 | after a fresh transcription the cache file is written exactly when a cache path is given, and no other file changes |
| DocumentLoaders.IngestAudioFromBufferDefaults | server/rag-core/src/documentLoaders.ts:97-152 | the provider gets the file name or "audio" and the MIME type or the generic one; the one document's source is the audio source, else the file name, else "audio" |
| DocumentLoaders.BufferMetadata | server/rag-core/src/documentLoaders.ts:117-120 | a buffer's document carries only the four fixed metadata properties, with its source |
| DocumentLoaders.IngestAudioFromPathResult | server/rag-core/src/documentLoaders.ts:125-140 | a missing audio file fails with "Audio file not found at …" before anything else; success yields exactly one document whose source is the path |
| Chunking.StampChunks | server/rag-core/src/chunking.ts:16-30 | the in-place `forEach` leaves the chunk array equal to the specified stamped chunks |
| Chunking.ChunkedIndex | server/rag-core/src/chunking.ts:16-18 | each chunk keeps its text and gets its position as `chunk_index` |
| Chunking.ChunkedPublic | server/rag-core/src/chunking.ts:20 | every chunk is marked public, so it passes the public-only filter |
| Chunking.ChunkedSourceType | server/rag-core/src/chunking.ts:19 | a truthy `source_type` is kept and anything else becomes "unknown" |
| Chunking.ChunkedSourceDisplay | server/rag-core/src/chunking.ts:22-29 | a truthy `source_display` is kept; otherwise it is "Audio Transcript" for audio and "Unknown Source" for anything else |
| Chunking.ChunkedOthers | server/rag-core/src/chunking.ts:16-30 | no metadata key other than the four stamped ones changes |
| Indexing.SanitizeValue | server/rag-core/src/indexing.ts:8-16 | strings, numbers, booleans and `null` are kept; everything else becomes its string form |
| Indexing.SanitizeMetadata | server/rag-core/src/indexing.ts:5-20 | the loop over the entries computes the specified sanitised metadata |
| Indexing.SanitizedKeys | server/rag-core/src/indexing.ts:5-20 | the sanitised metadata has exactly the original keys, in order |
| Indexing.SanitizedValues | server/rag-core/src/indexing.ts:8-16 | each value is primitive afterwards; a primitive one is unchanged and any other is replaced by its string form |
| Indexing.SanitizeIdempotent | server/rag-core/src/indexing.ts:5-20 | sanitising twice is sanitising once |
| Indexing.SanitizeDocumentsKeeps | server/rag-core/src/indexing.ts:26-32 | the documents handed to the vector store keep their count, order, text and keys |
| Indexing.SanitizeKeepsPublic | server/rag-core/src/indexing.ts:26-32 | a document that passes the public-only filter still passes it after sanitising |
| Indexing.SanitizeCanAdmit | server/rag-core/src/indexing.ts:16 | an `access_level` of `["public"]` is stringified to "public" and then passes the filter |
| Indexing.ChunksStayPublic | server/rag-core/src/indexing.ts:26-32 | every stamped chunk, once sanitised, still passes the public-only filter |
| Transcription.TranscribeFileToTextResult | server/rag-core/src/transcription.ts:16-48 | without a key the call fails with the fixed message before the provider is reached; with one it fails exactly when the provider does and otherwise returns the provider's text trimmed under the requested model |
| Transcription.BaseMetadataKeys | server/rag-core/src/transcription.ts:53-58 | every transcript document carries the four fixed keys, in order and without duplicates |
| Transcription.WithSegmentsKeys | server/rag-core/src/transcription.ts:60-64 | the segment keys are added exactly when there are segments |
| Transcription.AudioMetadataKeys | server/rag-core/src/transcription.ts:50-70 | the keys, in order: the four fixed ones, the two segment keys only with segments, the cache key only with a non-empty cache path, and nothing else |
| Transcription.AudioMetadataValues | server/rag-core/src/transcription.ts:53-58 | source and model as given, `source_type` "audio" and `source_display` "Audio Transcript" |
| Transcription.AudioMetadataOptionalValues | server/rag-core/src/transcription.ts:60-67 | the segment count, the first segment's text or `null`, and the cache path as given |
| Tools.SearchTranscriptResult | server/rag-core/src/tools.ts:17-23 | no hits give the fixed message and only then; each hit appears as its numbered block, the first hit first |
| Tools.SearchTranscriptCons | server/rag-core/src/tools.ts:20-22 | after the first block come the rest of the hits, numbered from 2 |
| Tools.FullTranscriptResult | server/rag-core/src/tools.ts:31-40 | a blank transcript gives the fixed message; a short one comes back verbatim; a long one is cut at 12000 characters and marked; the output is bounded |
| Tools.SummaryInputResult | server/rag-core/src/tools.ts:53-56 | the summary prompt quotes up to 10000 characters whole and cuts and marks longer transcripts |
| Tools.ToolsReturned | server/rag-core/src/tools.ts:82 | three tools with distinct names, search first and summary last |
| Tools.TranscriptTools.constructor | server/rag-core/src/tools.ts:11-43 | the tools keep the transcript and start with no remembered summary and no model calls |
| Tools.TranscriptTools.GetSummary | server/rag-core/src/tools.ts:50-79 | a remembered non-empty summary is returned without calling the model; otherwise the model is asked once with the summary prompt and a successful answer is remembered |
| Tools.SummaryRemembered | server/rag-core/src/tools.ts:43-77 | once a call has produced a non-empty summary, the next call returns the same text and asks the model nothing |
| Agent.TextContentParts | server/rag-core/src/agent.ts:26-40 | array content is read part by part: a string part gives itself, an object part with a string `text` gives that text, and a part that is neither a string nor an object with `text` (a number, boolean, `null`, array or object without `text`) gives nothing; empty content gives "" |
| Agent.Aggregate | server/rag-core/src/agent.ts:63-83 | the loop over the messages returns the tool-call names in order, the non-empty tool texts joined by a blank line, and the specified answer |
| Agent.ToolCallsAppend | server/rag-core/src/agent.ts:64-68 | the tool calls of two consecutive stretches of messages follow each other |
| Agent.ToolCallsMember | server/rag-core/src/agent.ts:64-68 | a name is among the tool calls exactly when some AI message asked for it |
| Agent.ContextPartsAppend | server/rag-core/src/agent.ts:69-72 | the context parts of two consecutive stretches of messages follow each other |
| Agent.ContextPartsFrom | server/rag-core/src/agent.ts:69-72 | every context part is the non-empty text of some tool message |
| Agent.AnswerResult | server/rag-core/src/agent.ts:75-80 | the answer is never empty: the last message's text when it is a non-empty AI message, the fixed sentence otherwise |
| Cli.Find | server/rag-core/src/cli.ts:16-17 | `indexOf`: no index exactly when the flag is absent, otherwise the index of its first occurrence |
| Cli.ValueAfterResult | server/rag-core/src/cli.ts:15-21 | a value is found exactly when the argument after the flag's first occurrence exists, is non-empty and is not a flag; it is that argument |
| Cli.ParseArgumentsResult | server/rag-core/src/cli.ts:11-35 | parsing fails with the fixed message exactly when `--audio` has no value; the two switches are on exactly when present anywhere; absent path options are `null` |
| Cli.FlagIsNotAValue | server/rag-core/src/cli.ts:19-24 | `--audio --force-rebuild` has no audio path and fails |
| Cli.RunInteractiveMode | server/rag-core/src/cli.ts:49-70 | the question loop asks exactly the specified questions and prints one reply per question, asking again after an answer and after an error alike |
| Cli.RepliesAt | server/rag-core/src/cli.ts:58-66 | the reply to each question is its answer, or the thrown error's message |
| Cli.QuestionsResult | server/rag-core/src/cli.ts:51-56 | every question asked is a line trimmed, non-blank and not a stop word, taken in order before the first stopping line |
| Cli.QuitStops | server/rag-core/src/cli.ts:51-52 | "  QUIT " ends the loop before any question is asked |
| IngestionsController.ParseQueryExpansionsResult | server/api/src/controllers/ingestionsController.ts:5-15 | a missing, non-string or blank field gives neither configuration nor error; otherwise the parsed configuration, or the fixed error exactly when parsing fails; never both |
| IngestionsController.ReadQuestionResult | server/api/src/controllers/ingestionsController.ts:17-23 | the question is the trimmed string `question` of an object body and "" otherwise; it never starts or ends with whitespace |
| IngestionsController.CreateIngestionResult | server/api/src/controllers/ingestionsController.ts:25-45 | a missing file, then bad expansions JSON, answer 400 and create nothing; otherwise the ingestion is created queued and a successful persist answers 202 with its id |
| IngestionsController.GetIngestionResult | server/api/src/controllers/ingestionsController.ts:47-53 | 404 exactly for a record the caller does not own or that does not exist; the owner gets the public view |
| IngestionsController.GetTranscriptResult | server/api/src/controllers/ingestionsController.ts:55-72 | 404 exactly when the record is not visible, 409 exactly when it is not ready or names no transcript, otherwise the file's text or 500 with the read error |
| IngestionsController.AskIngestionResult | server/api/src/controllers/ingestionsController.ts:74-93 | 404, then 409 for a record without a ready closure, then 400 for a blank question; otherwise the record's closure answers the trimmed question, or 500; the service state never changes |
| IngestionsController.RecoveredAskRejected | server/api/src/controllers/ingestionsController.ts:79-81 | a ready record recovered after a restart has no closure, so the handler answers 409 even though the service could rebuild one |
| IngestionsRoutes.SanitizeFileNameResult | server/api/src/routes/ingestions.routes.ts:17-18 | the stored name is non-empty, made of allowed characters only and at most 160 long; "audio" for an empty name, otherwise a prefix of the collapsed name |
| IngestionsRoutes.SanitizeKeepsSafeName | server/api/src/routes/ingestions.routes.ts:17-18 | a safe name of at most 160 characters is kept as it is |
| IngestionsRoutes.SanitizeIdempotent | server/api/src/routes/ingestions.routes.ts:17-18 | sanitising twice is sanitising once |
| IngestionsRoutes.SanitizeCollapsesRun | server/api/src/routes/ingestions.routes.ts:17-18 | a run of disallowed characters between two safe parts becomes one "_" |
| IngestionsRoutes.FileFilterResult | server/api/src/routes/ingestions.routes.ts:30-48 | any audio or video MIME type is accepted; otherwise the upload is accepted exactly when its lower-cased extension is on an allow-list, and refused with "Unsupported file type" |
| IngestionsRoutes.UpperCaseVideoAccepted | server/api/src/routes/ingestions.routes.ts:28-31 | "clip.MOV" with a generic MIME type is accepted |
| IngestionsRoutes.TextFileRefused | server/api/src/routes/ingestions.routes.ts:30-37 | "notes.txt" as "text/plain" is refused |
| Ingestion.ReadFile | server/api/src/services/ingestionService.ts:198 | a read succeeds exactly for an existing file and returns its text |
| Ingestion.Unlink | server/api/src/services/ingestionService.ts:58-65 | `safeUnlink` removes the file; an empty path or a missing file changes nothing and is no error |
| Ingestion.WriteRecord | server/api/src/services/ingestionService.ts:67-87 | after a persist the record's file holds the JSON text of its payload |
| Ingestion.StatusNameRoundTrip | server/api/src/services/ingestionService.ts:117-123 | each of the four statuses is read back from the name it is written as |
| Ingestion.PayloadRoundTrip | server/api/src/services/ingestionService.ts:70-158 | a persisted payload is read back as the record without its closure when the record is complete, and rejected otherwise |
| Ingestion.LoadFile | server/api/src/services/ingestionService.ts:94-161 | a listed entry yields at most one record, only for a ".json" name, complete and without a closure |
| Ingestion.LatestIsLast | server/api/src/services/ingestionService.ts:146 | after loading, an id is in the map exactly when some loaded record has it, and it maps to the last such record |
| Ingestion.LoadFileAccepts | server/api/src/services/ingestionService.ts:95-158 | a ".json" entry whose file parses to an accepted record yields exactly that record |
| Ingestion.RecoverWritten | server/api/src/services/ingestionService.ts:67-166 | a record file written by a persist is read back at start-up as the same record without its closure |
| Ingestion.Initial | server/api/src/services/ingestionService.ts:89-176 | after `init()` nothing is cancelled, no worker runs, the invariant holds, and every recovered record is complete and has no closure |
| Ingestion.InitialKeepsLast | server/api/src/services/ingestionService.ts:93-158 | after start-up the map holds, for every id found, the record of the last file listed with that id |
| Ingestion.Get | server/api/src/services/ingestionService.ts:188-192 | a record is returned exactly when the map holds it and the caller owns it |
| Ingestion.GetOwnerOnly | server/api/src/services/ingestionService.ts:188-192 | `get` only ever hands a record to its owner, and it is the record of the id asked for |
| Ingestion.Delete | server/api/src/services/ingestionService.ts:201-208 | the id is cancelled and leaves the map, its record file is gone, every other id is unchanged, and the invariant holds |
| Ingestion.DeletedInTurn | server/api/src/services/ingestionService.ts:205-207 | the removed files are the record file, the transcript (or the default transcript path) and the audio of a record still in the map, empty paths skipped |
| Ingestion.DeleteHides | server/api/src/services/ingestionService.ts:188-208 | after `delete`, `get`, the transcript and `ask` all answer `null` for the id, and every other id is served as before |
| Ingestion.DeleteTwice | server/api/src/services/ingestionService.ts:201-208 | a second `delete` of the same id changes nothing except possibly removing the default transcript path |
| Ingestion.DeleteOneMore | server/api/src/services/ingestionService.ts:215 | deleting the owner's ids one at a time, in any order, reaches the same state |
| Ingestion.DeleteAllExact | server/api/src/services/ingestionService.ts:210-216 | afterwards the owner sees none of its records and every other owner sees what it saw before |
| Ingestion.Create | server/api/src/services/ingestionService.ts:240-243 | the record enters the map, is persisted, and only after a successful persist is a worker queued; the invariant holds |
| Ingestion.CreateQueues | server/api/src/services/ingestionService.ts:218-332 | a created upload is at once visible to its owner as "queued" with its file written and a worker queued; a failed first persist throws but leaves the record queued with no worker |
| Ingestion.CreateFromUrlRecord | server/api/src/services/ingestionService.ts:335-362 | a link job downloads to the id's ".mp3", keeps the link as its name, declares "audio/mpeg", and is queued exactly when the first persist succeeds |
| Ingestion.Ask | server/api/src/services/ingestionService.ts:446-470 | `ask` keeps the invariant; a missing closure of a ready record with a transcript is rebuilt and kept on the record |
| Ingestion.AskRebuildThenReuse | server/api/src/services/ingestionService.ts:456-468 | a closure rebuilt by `ask` is reused by the next question, which changes nothing |
| Ingestion.DownloadError | server/api/src/services/ingestionService.ts:383-395 | a missing yt-dlp and an HTTP 403 are reported with their fixed messages, any other error as it is |
| Ingestion.Fail | server/api/src/services/ingestionService.ts:313-329 | the worker's catch leaves the record "error" without a closure and with the error text; a cancelled id's record file is not written |
| Ingestion.StartResult | server/api/src/services/ingestionService.ts:243-250 | a removed or cancelled job's worker stops and changes nothing else; otherwise the record turns "processing", and when that persist succeeds it is written and the worker runs on, while a failed persist leaves the disk as it was and ends the worker |
| Ingestion.StartPersistFailureStalls | server/api/src/services/ingestionService.ts:248-250 | when persisting "processing" fails, the worker ends and the record stays "processing" with no step left to finish it |
| Ingestion.ExtractAudioResult | server/api/src/services/ingestionService.ts:261-284 | on success the record names uploads/<id>.mp3 as "audio/mpeg", the upload is removed and the extracted audio is on disk; a missing ffmpeg fails the job with its fixed message, any other error with that error |
| Ingestion.DownloadResult | server/api/src/services/ingestionService.ts:378-396 | on success the audio is written to the id's .mp3 and the worker runs on with nothing else changed; on failure the job ends "error" with the error as `DownloadError` reports it |
| Ingestion.TranscribeResult | server/api/src/services/ingestionService.ts:286-296 | an unreadable audio file or a failed transcription fails the job with that error; a job cancelled or removed meanwhile ends with nothing written and no "ready"; otherwise only the worker changes, holding the closure and the transcript |
| Ingestion.WriteTranscript | server/api/src/services/ingestionService.ts:298-417 | the transcript is written and the record becomes "ready" with its closure; the worker ends and a cancelled id's record file is not written |
| Ingestion.FinishedIsReady | server/api/src/services/ingestionService.ts:298-306 | a finished job that was neither cancelled nor removed is "ready": the owner gets the written transcript and questions go to the session's closure |
| Ingestion.ReadyPersistFailure | server/api/src/services/ingestionService.ts:305-322 | when persisting "ready" fails the record ends "error" but keeps its transcript path, and the transcript is no longer served |
| Ingestion.DeleteDuringWriteLeavesTranscript | server/api/src/services/ingestionService.ts:201-300 | a delete that lands while the transcript is written leaves the transcript file on disk with nobody to remove it |
| Ingestion.FailedServesNothing | server/api/src/services/ingestionService.ts:313-322 | a failed job answers no question and serves no transcript |
| Service.IngestionService.constructor | server/api/src/services/ingestionService.ts:168-176 | construction plus `init()` gives the recovered start-up state |
| Service.IngestionService.Delete | server/api/src/services/ingestionService.ts:201-208 | the fields change as `Ingestion.Delete` specifies |
| Service.IngestionService.DeleteAllForOwner | server/api/src/services/ingestionService.ts:210-216 | the loop over the owner's ids reaches the state `Ingestion.DeleteAll` specifies |
| Service.IngestionService.Create | server/api/src/services/ingestionService.ts:240-243 | the fields change as `Ingestion.Create` specifies |
| Service.IngestionService.CreateFromUpload | server/api/src/services/ingestionService.ts:218-243 | the fields change as `Ingestion.CreateFromUpload` specifies |
| Service.IngestionService.CreateFromUrl | server/api/src/services/ingestionService.ts:335-362 | the fields change as `Ingestion.CreateFromUrl` specifies |
| Service.IngestionService.Ask | server/api/src/services/ingestionService.ts:446-470 | the fields and the result are those of `Ingestion.Ask` |
| Service.IngestionService.Fail | server/api/src/services/ingestionService.ts:313-329 | the fields change as `Ingestion.Fail` specifies |
| Service.IngestionService.Start | server/api/src/services/ingestionService.ts:243-250 | the fields change as `Ingestion.Start` specifies |
| Service.IngestionService.ExtractAudio | server/api/src/services/ingestionService.ts:261-284 | the fields change as `Ingestion.ExtractAudio` specifies |
| Service.IngestionService.Download | server/api/src/services/ingestionService.ts:378-396 | the fields change as `Ingestion.Download` specifies |
| Service.IngestionService.Transcribe | server/api/src/services/ingestionService.ts:286-296 | the fields change as `Ingestion.Transcribe` specifies |
| Service.IngestionService.WriteTranscript | server/api/src/services/ingestionService.ts:298-306 | the fields change as `Ingestion.WriteTranscript` specifies |
| AuthSid.CookieParts | server/api/src/middleware/authSid.ts:9 | one trimmed piece per ";"-separated piece of the header |
| AuthSid.CookieValue | server/api/src/middleware/authSid.ts:4-19 | the loop over the pieces returns the specified cookie lookup |
| AuthSid.FirstMatchResult | server/api/src/middleware/authSid.ts:10-17 | nothing is found exactly when no piece has the name as its key; otherwise the first such piece is taken |
| AuthSid.NoHeaderNoCookie | server/api/src/middleware/authSid.ts:8 | no header, or an empty one, has no cookie of any name |
| AuthSid.CookieRoundTrip | server/api/src/middleware/authSid.ts:9-28 | a header that starts with the session cookie's encoded value gives back the value, whatever follows after a ";" |
| AuthSid.MaxAgeResult | server/api/src/middleware/authSid.ts:32 | the age is the floor of the seconds for a non-negative value, 0 below one second, and never more than the seconds given |
| AuthSid.SetCookieHeaderResult | server/api/src/middleware/authSid.ts:27-34 | the header is the encoded pair, "Path=/", "HttpOnly", "SameSite=Lax" and the age, then "Secure" exactly in production, separated by "; " |
| AuthSid.GetOrSetOwnerIdResult | server/api/src/middleware/authSid.ts:37-46 | a non-empty session cookie is the owner id and no cookie is set; otherwise the fresh id becomes the owner and is set for 2592000 seconds; a cookie that fails to decode throws |
| AuthSid.SessionIsRemembered | server/api/src/middleware/authSid.ts:37-46 | a browser that sends back the cookie it was given is recognised as the same owner and gets no new cookie |
| YtDlp.OutputTemplateResult | server/api/src/utils/ytdlp.ts:35-37 | the template ends with the extension placeholder; for a path ending in ".mp3" the tool writes exactly that path, otherwise it appends ".mp3" |
| YtDlp.UpperCaseSuffixKept | server/api/src/utils/ytdlp.ts:35-37 | the suffix test is case-sensitive: "A.MP3" gets the placeholder appended after its own extension |
| YtDlp.DownloadResult | server/api/src/utils/ytdlp.ts:39-75 | the android client runs first; the ios client runs once more exactly when the first failure mentions an HTTP 403; success ends in the file check, failure with the last attempt's error |
| YtDlp.RetryChangesOnlyClient | server/api/src/utils/ytdlp.ts:39-68 | the two argument lists differ only in the player client |
| YtDlp.DoubleForbiddenFails | server/api/src/utils/ytdlp.ts:52-72 | a 403 on the first client and a failure on the second fail with the second error |
| YtDlp.IsYtDlpMissingErrorResult | server/api/src/utils/ytdlp.ts:19-27 | exactly an object whose `code` is the string "ENOENT"; primitives never are |
| HistoryStorage.Take | client/src/utils/historyStorage.ts:49 | the first n entries, or all of them when there are fewer |
| HistoryStorage.WithoutResult | client/src/utils/historyStorage.ts:77 | the entries with another id, and only those, in their order |
| HistoryStorage.WithoutNothing | client/src/utils/historyStorage.ts:77 | a list that does not hold the id is left as it is |
| HistoryStorage.UpsertResult | client/src/utils/historyStorage.ts:71-79 | the new item comes first and appears once by id; the other entries keep their order; never more than 10 entries |
| HistoryStorage.UpsertIdempotent | client/src/utils/historyStorage.ts:71-79 | upserting the same item twice is upserting it once |
| HistoryStorage.ItemOfResult | client/src/utils/historyStorage.ts:19-46 | an entry is kept exactly when it is an object with a non-empty `ingestionId` or legacy `id`; the newer field wins; a missing name is "audio"; a boolean `isUrl` is kept, and without one the flag says whether a `url` is stored; a missing timestamp is the load's clock |
| HistoryStorage.LoadHistoryFromStorage | client/src/utils/historyStorage.ts:11-53 | the load loop returns the specified history of the stored text |
| HistoryStorage.ItemsFrom | client/src/utils/historyStorage.ts:18-47 | every entry read back comes from some stored entry |
| HistoryStorage.LoadedResult | client/src/utils/historyStorage.ts:11-53 | at most 10 entries, each with an id and a name, each from a stored entry; nothing stored, a parse failure or a non-array gives the empty history |
| RagApi.StrippedSlashes | client/src/lib/ragApi.ts:14 | only slashes are removed, and only from the end |
| RagApi.ApiBaseUrlResult | client/src/lib/ragApi.ts:11-16 | the base never ends in "/"; it is the local server exactly when nothing non-blank is configured, and otherwise the trimmed value less its trailing slashes |
| RagApi.SlashOnlyBase | client/src/lib/ragApi.ts:11-16 | a base of "/" gives "", so requests go to the page's own origin |
| RagApi.AsJsonOrThrowResult | client/src/lib/ragApi.ts:18-32 | an empty body is `null` on success; a body that is not JSON throws the parse error; a failed response throws the server's `error` text or "Request failed (status)"; only an ok response succeeds |
| RagApi.GetTranscriptTextResult | client/src/lib/ragApi.ts:75-93 | as written: the body on an ok response, and on any failure always "Request failed (status)" |
| RagApi.GetTranscriptTextIntendedResult | client/src/lib/ragApi.ts:75-93 | the intended reading: the same on success, and on failure the server's `error` text when the body carries one |
| RagApi.TranscriptMessageLost | client/src/lib/ragApi.ts:84-92 | a 409 with `{"error":"Ingestion not ready"}` throws "Request failed (409)" as written, while the intended version throws the server's message |
| Language.TJoinsTList | client/src/contexts/LanguageContext.tsx:110-122 | `t` is `tList` joined with spaces for every key; an unknown key gives the key itself |
| Language.SameKeys | client/src/contexts/LanguageContext.tsx:14-101 | both languages translate exactly the same keys |
| Language.SameShapes | client/src/contexts/LanguageContext.tsx:14-101 | a key holds a list of lines in one language exactly when it does in the other |
| Language.SubtitleLines | client/src/contexts/LanguageContext.tsx:14-101 | the subtitle is three lines in either language |
| UseIngestion.RoundedMbResult | client/src/hooks/useIngestion.ts:47 | the size shown in the too-large toast is rounded to the nearest megabyte, halves up |
| UseIngestion.IngestionFlow.constructor | client/src/hooks/useIngestion.ts:18-21 | the page starts on the upload screen with no name, no URL flag and no ingestion |
| UseIngestion.IngestionFlow.StartFileSelect | client/src/hooks/useIngestion.ts:23-54 | a non-empty URL wins and starts a URL request; with neither URL nor file nothing changes; a file over 500 MB changes nothing and shows the size toast; otherwise the upload starts and the screen shows processing; the ingestion id is untouched until the request settles |
| UseIngestion.IngestionFlow.CreateSettled | client/src/hooks/useIngestion.ts:30-65 | a created ingestion's id is kept and the screen stays as it is; a failure goes back to the upload screen with the error's message, or the fixed text when it is empty |
| UseIngestion.IngestionFlow.HandleCancel | client/src/hooks/useIngestion.ts:72-75 | back to the upload screen with no ingestion; the name and URL flag are kept |
| UseIngestion.IngestionFlow.HandleReset | client/src/hooks/useIngestion.ts:77-82 | the state the page starts in |
| UseIngestion.IngestionFlow.OpenChatFor | client/src/hooks/useIngestion.ts:84-92 | the results screen of the given earlier ingestion, with its name and URL flag |
| UseIngestion.IngestionFlow.TransitionToResults | client/src/hooks/useIngestion.ts:94-96 | the results screen; nothing else changes |
| UseIngestion.IngestionFlow.TransitionToUpload | client/src/hooks/useIngestion.ts:98-101 | the upload screen with no ingestion; the name and URL flag are kept |
| UseIngestion.SizeLimitBoundary | client/src/hooks/useIngestion.ts:11-12 | a file of exactly 500 MB is uploaded and one byte more is refused with the size toast |
| UseIngestion.CancelDuringUpload | client/src/hooks/useIngestion.ts:23-75 | a cancel while the upload is in flight, then its success: the upload screen is shown and polling is off, but the cancelled ingestion's id is set again |
| UsePreview.Preview.constructor | client/src/hooks/usePreview.ts:17-25 | the transcript tab, not loading, and three empty caches |
| UsePreview.Preview.SetPreviewTab | client/src/hooks/usePreview.ts:17 | the tab becomes the one chosen; the caches and the loading flag are kept |
| UsePreview.Preview.ResetPreviewTab | client/src/hooks/usePreview.ts:149-151 | back to the transcript tab; nothing else changes |
| UsePreview.Preview.EnsureTranscriptLoaded | client/src/hooks/usePreview.ts:36-50 | a request is made exactly when no non-empty transcript is cached for the id; a success caches the text for that id only, a failure caches nothing and shows the error's message; loading ends either way |
| UsePreview.Preview.EnsureSummaryLoaded | client/src/hooks/usePreview.ts:52-70 | the same for the summary, which caches the answer and its evaluation together and touches no transcript |
| UsePreview.Preview.AutoLoad | client/src/hooks/usePreview.ts:72-76 | with an id and a ready ingestion, the active tab's content is requested exactly when it is not cached yet, and a fetched summary is cached together with its evaluation; the chat tab, a missing id or an unready ingestion change nothing; the tab never changes and the other tab's cache is untouched |
| UsePreview.PreviewContentResult | client/src/hooks/usePreview.ts:78-88 | the preview is the active tab's cached text for the current ingestion, and "" without an id, on the chat tab or before it is fetched; an evaluation is shown only on the summary tab |
| UsePreview.DownloadPreviewResult | client/src/hooks/usePreview.ts:90-102 | nothing is saved exactly without an id, on the chat tab or for blank text; otherwise the file holds what the preview shows and is named after the tab |
| UsePreview.DownloadHandlersResult | client/src/hooks/usePreview.ts:104-147 | a string argument, even an empty one, is used over the current ingestion; without an id "Not ready" is shown and nothing is requested; otherwise the fetched text or answer is saved, or the error is shown |
| UsePreview.LoadedTranscriptIsShown | client/src/hooks/usePreview.ts:36-83 | a fetched transcript is shown at once and not fetched again |
| UsePreview.EmptyTranscriptRefetched | client/src/hooks/usePreview.ts:37 | an empty transcript counts as not loaded and is fetched again |
| UseMainController.PollReactionResult | client/src/hooks/useMainController.ts:40-72 | only a processing page with an ingestion reacts; a polling error wins over any status and sends the page back; results come exactly for a ready status, with a history entry that names the ingestion and uses "audio" for an empty name; queued and processing wait |
| UseMainController.OnPoll | client/src/hooks/useMainController.ts:40-72 | the poll effect applied to the page: no reaction changes nothing; going back forgets the ingestion and shows the toast; results switch the screen, reset the preview tab, keep every preview cache and the loading flag, and upsert the history entry; the name and URL flag are kept |
| UseMainController.ResultsNotCentered | client/src/hooks/useMainController.ts:117-122 | once results arrive the page is never centred and the ingestion heads the history |
| UseMainController.HandleOpenChat | client/src/hooks/useMainController.ts:86-95 | the chat tab when there is an ingestion, otherwise the "Not ready" toast and no change; the three caches and the loading flag are kept |
| UseMainController.HandleOpenChatFor | client/src/hooks/useMainController.ts:97-110 | an entry without an id shows a toast and changes nothing; otherwise the chat tab of that entry's ingestion, name and URL flag, with the three caches and the loading flag kept |
| UseMainController.HandleReset | client/src/hooks/useMainController.ts:112-115 | the upload state starts over and the preview returns to the transcript tab; the three caches and the loading flag are kept |
| UseMainController.UploadUntilReady | client/src/hooks/useMainController.ts:40-122 | an upload that succeeds and becomes ready shows the results on the transcript tab, with the file first in the history and the page not centred |
| Evaluation.RoundNearest | server/rag-core/src/evaluation.ts:28 | `Math.round` gives the nearest integer, halves going up |
| Evaluation.Clamp | server/rag-core/src/evaluation.ts:26-29 | every score is an integer from 0 to 10 |
| Evaluation.ClampResult | server/rag-core/src/evaluation.ts:26-29 | NaN and the infinities score 0; a finite number scores its nearest integer when that lies from 0 to 10 and the nearer bound otherwise; clamping a score changes nothing |
| Evaluation.FirstBlockResult | server/rag-core/src/evaluation.ts:51-52 | no block is found exactly when no "{" comes before a "}"; a block found runs from the first "{" to the nearest "}" after it |
| Evaluation.ContextCutResult | server/rag-core/src/evaluation.ts:40 | the judge sees at most the first 8000 characters of the context, and all of a shorter one |
| Evaluation.FilledAgrees | server/rag-core/src/evaluation.ts:38-40 | when neither the question nor the answer holds a "{", the three replacements fill the three placeholders of the prompt |
| Evaluation.PlaceholderInQuestion | server/rag-core/src/evaluation.ts:38-40 | as written, a question "{answer}" receives the answer in its place and the prompt no longer matches the template |
| Evaluation.EvaluateAnswerResult | server/rag-core/src/evaluation.ts:31-64 | the judge gets the prompt as the chained replacements fill it; every score is from 0 to 10; a failed call, a reply without a block, a block that does not parse or a parsed `null` give all zeros; otherwise each of the three scores is the clamped number of its field |
| Evaluation.EvaluateAnswerAgrees | server/rag-core/src/evaluation.ts:38-40 | when neither the question nor the answer holds a "{", the scores as written are the intended scores |

## Left out

- File-system, process and network I/O (`fs/promises`, `spawn`, `fetch`, `localStorage`): the disk is a map from path to text, and every other call is an outcome parameter of the step that makes it. `saveHistoryToStorage` and `clearHistoryStorage` only write to storage and are not modelled.
- External models and libraries (OpenAI transcription, Gemini chat and embeddings, FAISS, BM25, `RecursiveCharacterTextSplitter`, LangChain's `createAgent`): they are function parameters. The agent's system prompt and its recursion limit are not modelled.
- Concurrency: `queueMicrotask` scheduling is modelled only as step boundaries between which any request may run.
- Timers and polling (`useIngestionPolling.ts`) and `useHistory.ts`: the poll's outcome is an input of `UseMainController.OnPoll`.
- Floating-point arithmetic: scores and times are `real`, so JavaScript rounding of the fusion sums is not modelled.
- `JSON.parse`, `JSON.stringify`, `encodeURIComponent`, `decodeURIComponent`, `Number(...)` on strings, `randomUUID` and `Date.now` are parameters; a fresh id is assumed not to be in use.
- `HistoryStorage.LoadHistoryFromStorage`: one clock reading `now` serves every entry of a load, while the source reads `Date.now()` per entry.
- `e instanceof Error` is taken to hold for every thrown value, so the "Unexpected error" text is never chosen.
- `String.prototype.replace`'s `$&`-style patterns in a replacement string are not modelled: `Evaluation.ReplaceFirst` inserts the replacement verbatim.
- `Text.ToLower` lowercases ASCII letters only; whitespace is the ECMAScript white-space and line-terminator set.
- `Retrieval.AsStringArrayRecordGet` / `Retrieval.AsStringArrayRecord`: a configuration key that lower-cases to `__proto__` is stored as an own key of the record. In the source, `out[k.toLowerCase()] = arr` (retrieval.ts:46) goes through the `__proto__` setter instead: the record gains no own key and its prototype becomes the phrase array. Then a token such as "0" finds an element of that array, "length" finds a number and throws, and `Object.entries` skips the key as a phrase rule. This reserved key is not modelled.
- `Retrieval.NormalizeQuery`: its first `replace` maps an apostrophe to itself as written, so it is modelled as the identity.
- `Hybrid.SortByScore`: it is defined as a stable insertion, but the order of equal scores is not stated as a property.
- The rendering components, the routing table, the multipart middleware, the `authSid` middleware wrapper and `logLine` are not modelled.
- `createIngestionFromLink`, `deleteIngestion` and `deleteAllIngestions` are imported by the routes but not defined in the controller file; the client's `createIngestionFromUrl` is imported but not defined in `ragApi.ts`. Their outcomes are parameters.
- `Ingestion.StartPersistFailureStalls` / `Ingestion.Fail`: the persist of "processing" (ingestionService.ts:250) lies outside the worker's `try`, and the persist in its `catch` (321-322) has no handler either. A rejection of either escapes the callback given to `queueMicrotask` as an unhandled rejection, and the server installs no handler for it, so Node's default ends the process. Only the in-memory state that is left behind is modelled; the unhandled rejection and its effect on the process are not.
- `mkdir` calls are not modelled, and a persist's write to a temporary file followed by a rename is modelled as one direct write.
- The loading flag's value while a preview request is in flight is not observable in the model; only its final value is stated.
- `Ingestion.ExtractAudio`, `Ingestion.Transcribe` and `Ingestion.WriteTranscript` each fold several `await`s into one step: `extractAudioToMp3`, `safeUnlink` and the persist (ingestionService.ts:263-283); `readFile` and `createRagFromAudioBuffer` (286-293); `writeFile` and the final persist (298-307). A delete that lands between those, for instance while a guarded persist renames its temporary file back over the `.json`, is not expressible.
- `Retrieval.LoadQueryExpansionsConfig`: an explicit `queryExpansions` is a typed `QueryExpansions`. The source passes any truthy parsed JSON through unchecked, so a request body with `{}` or `5` there would make every question throw; that path is not modelled.
- `Js.Keys`: object keys are enumerated in insertion order. JavaScript enumerates integer-like keys first, in ascending order, which would change the order of phrase rules, which phrases the `maxExtraPhrases` cut keeps, the key order of a synonym record and the order of sanitised metadata fields; this is not modelled.
- `Text.StrLess` and every string length or cut: a Dafny `char` is a Unicode scalar value, while JavaScript counts and compares UTF-16 code units. For text outside the Basic Multilingual Plane, `docKey`'s first 100 characters, the 12000, 10000 and 8000 character cuts and the sort order of `StrLess` differ from the source.

## Findings

| source | as written | input that shows it | evidently intended | confidence | as-written member | corrected member |
|---|---|---|---|---|---|---|
| server/rag-core/src/retrieval.ts:95-97 | `tokenSynonyms[variant]` is a plain property read, so a token that names an `Object.prototype` member finds that member | the query "constructor" finds `Object.prototype.constructor`, a function, and the `for..of` over it throws a `TypeError` | only the configuration's own keys are synonym rules, and any query is expanded | not executed | Retrieval.ConstructorQueryThrows | Retrieval.ExpansionAgrees |
| client/src/lib/ragApi.ts:84-92 | `throw new Error(data.error)` sits inside a `try` whose `catch` ignores every error | a 409 response with body `{"error":"Ingestion not ready"}` throws "Request failed (409)" | the server's `error` text is thrown when the body carries one | not executed | RagApi.TranscriptMessageLost | RagApi.GetTranscriptTextIntendedResult |
| server/rag-core/src/evaluation.ts:38-40 | the three `replace` calls run one after another, each on the previous output | a question "{answer}" receives the answer in its place, and the prompt's own "{answer}" placeholder is left in the text | each placeholder of the template is replaced by its own value | not executed | Evaluation.PlaceholderInQuestion | Evaluation.FilledAgrees |
