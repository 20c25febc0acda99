/**
  * The transcription helpers: the call to the speech-to-text provider, which
  * is a parameter here, and the metadata attached to a transcript document.
  */
module Transcription {
  import opened Wrappers
  import opened Text
  import opened Js

  datatype TranscriptionResult = TranscriptionResult(text: string, model: string)

  /** A timed piece of the transcript. */
  datatype Segment = Segment(start: real, end: real, text: string)

  /** `AudioMetadataOptions`; an absent optional field is `None`. */
  datatype AudioMetadataOptions = AudioMetadataOptions(
    source: string, whisperModel: string, cachePath: Option<string>, segments: Option<seq<Segment>>)

  const DefaultModel := "whisper-1"

  const MissingKeyMessage := "OPENAI_API_KEY environment variable is not set for audio transcription."

  /** `transcribeFileToText`.  `apiKey` is the environment variable and
      `provider` what the provider answers for the file (its text, or the
      error it throws). */
  function TranscribeFileToText(apiKey: Option<string>, provider: Result<string, JsError>, modelName: string): Result<TranscriptionResult, JsError> {
    if apiKey.None? || apiKey.value == "" then Failure(JsError("Error", MissingKeyMessage, None))
    else if provider.Failure? then Failure(provider.error)
    else Success(TranscriptionResult(Trim(provider.value), modelName))
  }

  /** Without a key the call fails before reaching the provider; with one it
      returns the provider's text trimmed, under the requested model name. */
  lemma TranscribeFileToTextResult(apiKey: Option<string>, provider: Result<string, JsError>, modelName: string)
    ensures var r := TranscribeFileToText(apiKey, provider, modelName);
      && (apiKey.None? || apiKey.value == "" ==> r == Failure(JsError("Error", MissingKeyMessage, None)))
      && (r.Success? <==> apiKey.Some? && apiKey.value != "" && provider.Success?)
      && (r.Success? ==> r.value.model == modelName && r.value.text == Trim(provider.value))
      && (r.Success? && r.value.text != [] ==> !IsSpace(r.value.text[0]) && !IsSpace(r.value.text[|r.value.text| - 1]))
  {
  }

  /** The keys every transcript document carries. */
  const BaseKeys: seq<string> := ["source", "source_type", "source_display", "whisper_model"]

  /** `segments[0]?.text || null` */
  function PreviewOf(segments: seq<Segment>): Value
    requires segments != []
  {
    if segments[0].text != "" then Str(segments[0].text) else Null
  }

  /** The four properties every transcript document carries. */
  function BaseMetadata(o: AudioMetadataOptions): Dict<Value> {
    [("source", Str(o.source)), ("source_type", Str("audio")),
     ("source_display", Str("Audio Transcript")), ("whisper_model", Str(o.whisperModel))]
  }

  /** The base properties, then the segment properties when there are segments. */
  function WithSegments(o: AudioMetadataOptions): Dict<Value> {
    var segments := o.segments.GetOr([]);
    if |segments| > 0 then BaseMetadata(o) + [("segment_count", Num(|segments| as real)), ("segment_preview", PreviewOf(segments))]
    else BaseMetadata(o)
  }

  /** `buildAudioMetadata`: the four fixed properties, then the segment
      properties when there are segments, then the cache path when it is a
      non-empty string.  Each new property is appended after the others, as
      assigning a new key to an object does. */
  function BuildAudioMetadata(o: AudioMetadataOptions): Dict<Value> {
    if o.cachePath.Some? && o.cachePath.value != "" then WithSegments(o) + [("transcript_cache_path", Str(o.cachePath.value))]
    else WithSegments(o)
  }

  lemma BaseMetadataKeys(o: AudioMetadataOptions)
    ensures Keys(BaseMetadata(o)) == BaseKeys && UniqueKeys(BaseMetadata(o))
  {
  }

  /** The optional keys differ from each other and from the base keys. */
  lemma OptionalKeysFresh()
    ensures "segment_count" !in BaseKeys
    ensures "segment_preview" !in BaseKeys + ["segment_count"]
    ensures "transcript_cache_path" !in BaseKeys + ["segment_count", "segment_preview"]
  {
    var all := BaseKeys + ["segment_count", "segment_preview"];
    assert forall i :: 0 <= i < 4 ==> all[i][1] == 'o' || all[i][1] == 'h';
    assert all[4][8] == 'c' && all[5][8] == 'p';
  }

  lemma WithSegmentsKeys(o: AudioMetadataOptions)
    ensures Keys(WithSegments(o)) == BaseKeys + (if |o.segments.GetOr([])| > 0 then ["segment_count", "segment_preview"] else [])
    ensures UniqueKeys(WithSegments(o))
  {
    var base := BaseMetadata(o);
    BaseMetadataKeys(o);
    var segments := o.segments.GetOr([]);
    OptionalKeysFresh();
    if |segments| > 0 {
      AppendUnique(base, "segment_count", Num(|segments| as real));
      var b1 := base + [("segment_count", Num(|segments| as real))];
      AppendUnique(b1, "segment_preview", PreviewOf(segments));
      assert WithSegments(o) == b1 + [("segment_preview", PreviewOf(segments))];
    }
  }

  /** The keys, in order: the segment keys only with segments, the cache key
      only with a non-empty cache path, and no other key. */
  lemma AudioMetadataKeys(o: AudioMetadataOptions)
    ensures var segments := o.segments.GetOr([]);
      Keys(BuildAudioMetadata(o)) ==
        BaseKeys
        + (if |segments| > 0 then ["segment_count", "segment_preview"] else [])
        + (if o.cachePath.Some? && o.cachePath.value != "" then ["transcript_cache_path"] else [])
    ensures UniqueKeys(BuildAudioMetadata(o))
  {
    WithSegmentsKeys(o);
    OptionalKeysFresh();
    if o.cachePath.Some? && o.cachePath.value != "" {
      AppendUnique(WithSegments(o), "transcript_cache_path", Str(o.cachePath.value));
    }
  }

  /** The values: the source and model as given, "audio" and "Audio
      Transcript" always. */
  lemma AudioMetadataValues(o: AudioMetadataOptions)
    ensures var md := BuildAudioMetadata(o);
      && Get(md, "source") == Some(Str(o.source))
      && Get(md, "source_type") == Some(Str("audio"))
      && Get(md, "source_display") == Some(Str("Audio Transcript"))
      && Get(md, "whisper_model") == Some(Str(o.whisperModel))
  {
    var md := BuildAudioMetadata(o);
    AudioMetadataKeys(o);
    assert md[..4] == BaseMetadata(o);
    GetUnique(md, "source", 0);
    GetUnique(md, "source_type", 1);
    GetUnique(md, "source_display", 2);
    GetUnique(md, "whisper_model", 3);
  }

  /** With segments, their count and the first one's text or `null`; the
      cache path as given. */
  lemma AudioMetadataOptionalValues(o: AudioMetadataOptions)
    ensures var md := BuildAudioMetadata(o);
      var segments := o.segments.GetOr([]);
      && (|segments| > 0 ==> Get(md, "segment_count") == Some(Num(|segments| as real)))
      && (|segments| > 0 ==> Get(md, "segment_preview") == Some(if segments[0].text != "" then Str(segments[0].text) else Null))
      && (o.cachePath.Some? && o.cachePath.value != "" ==> Get(md, "transcript_cache_path") == Some(Str(o.cachePath.value)))
  {
    var md := BuildAudioMetadata(o);
    AudioMetadataKeys(o);
    var segments := o.segments.GetOr([]);
    if |segments| > 0 {
      assert md[..6] == WithSegments(o);
      GetUnique(md, "segment_count", 4);
      GetUnique(md, "segment_preview", 5);
    }
    if o.cachePath.Some? && o.cachePath.value != "" {
      GetUnique(md, "transcript_cache_path", |md| - 1);
    }
  }
}
