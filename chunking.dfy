/**
  * `chunkDocuments`: the text splitter's output, with each chunk's metadata
  * stamped in place with its position, its source type, the access level
  * the retriever filters on, and a display name.  The splitter itself is
  * not modelled: its output is the input here.
  */
module Chunking {
  import opened Wrappers
  import opened Js
  import opened DocFilter

  /** The splitter's defaults. */
  const DefaultChunkSize := 1000
  const DefaultChunkOverlap := 200

  /** `metadata.k` is set to a truthy value. */
  predicate IsTruthy(o: Option<Value>) {
    o.Some? && Truthy(o.value)
  }

  /** `metadata.source_type || "unknown"` */
  function SourceTypeOr(o: Option<Value>): Value {
    if IsTruthy(o) then o.value else Str("unknown")
  }

  /** The display name chosen for a chunk without one. */
  function DisplayFor(sourceType: Value): Value {
    if sourceType == Str("audio") then Str("Audio Transcript") else Str("Unknown Source")
  }

  /** The first three assignments of the `forEach` body. */
  function Stamp3(md: Dict<Value>, idx: nat): Dict<Value> {
    var m1 := Set(md, "chunk_index", Num(idx as real));
    var m2 := Set(m1, "source_type", SourceTypeOr(Get(m1, "source_type")));
    Set(m2, "access_level", Str("public"))
  }

  /** The body of the `forEach` on the chunk at position `idx`, on its
      metadata object. */
  function Stamp(md: Dict<Value>, idx: nat): Dict<Value> {
    var m3 := Stamp3(md, idx);
    if IsTruthy(Get(m3, "source_display")) then m3
    else Set(m3, "source_display", DisplayFor(SourceTypeOr(Get(m3, "source_type"))))
  }

  function StampDoc(d: Document, idx: nat): Document {
    Document(d.pageContent, Stamp(d.metadata, idx))
  }

  /** What `chunkDocuments` returns for the splitter's output `split`. */
  function Chunked(split: seq<Document>): (r: seq<Document>)
    ensures |r| == |split|
  {
    seq(|split|, i requires 0 <= i < |split| => StampDoc(split[i], i))
  }

  /** `chunkedDocs.forEach(...)`: every chunk is stamped in place. */
  method StampChunks(chunks: array<Document>)
    modifies chunks
    ensures chunks[..] == Chunked(old(chunks[..]))
  {
    ghost var split := chunks[..];
    var idx := 0;
    while idx < chunks.Length
      invariant 0 <= idx <= chunks.Length
      invariant forall i :: 0 <= i < idx ==> chunks[i] == StampDoc(split[i], i)
      invariant forall i :: idx <= i < chunks.Length ==> chunks[i] == split[i]
    {
      chunks[idx] := StampDoc(chunks[idx], idx);
      idx := idx + 1;
    }
  }

  /** Reading `k` after one assignment `metadata[key] = v`. */
  lemma GetAfterSet(md: Dict<Value>, key: string, v: Value, k: string)
    ensures Get(Set(md, key, v), k) == if k == key then Some(v) else Get(md, k)
  {
    if k == key {
      SetGet(md, key, v);
    } else {
      SetOther(md, key, v, k);
    }
  }

  lemma Stamp3Get(md: Dict<Value>, idx: nat, k: string)
    ensures Get(Stamp3(md, idx), k) ==
      if k == "chunk_index" then Some(Num(idx as real))
      else if k == "source_type" then Some(SourceTypeOr(Get(md, "source_type")))
      else if k == "access_level" then Some(Str("public"))
      else Get(md, k)
  {
    var m1 := Set(md, "chunk_index", Num(idx as real));
    var m2 := Set(m1, "source_type", SourceTypeOr(Get(m1, "source_type")));
    GetAfterSet(md, "chunk_index", Num(idx as real), "source_type");
    GetAfterSet(md, "chunk_index", Num(idx as real), k);
    GetAfterSet(m1, "source_type", SourceTypeOr(Get(m1, "source_type")), k);
    GetAfterSet(m2, "access_level", Str("public"), k);
  }

  /** The values of the stamped keys; every other key keeps its value. */
  lemma StampGet(md: Dict<Value>, idx: nat, k: string)
    ensures Get(Stamp(md, idx), k) ==
      if k == "chunk_index" then Some(Num(idx as real))
      else if k == "source_type" then Some(SourceTypeOr(Get(md, "source_type")))
      else if k == "access_level" then Some(Str("public"))
      else if k == "source_display" then
        (if IsTruthy(Get(md, "source_display")) then Get(md, "source_display")
         else Some(DisplayFor(SourceTypeOr(Get(md, "source_type")))))
      else Get(md, k)
  {
    var m3 := Stamp3(md, idx);
    Stamp3Get(md, idx, k);
    Stamp3Get(md, idx, "source_display");
    Stamp3Get(md, idx, "source_type");
    if !IsTruthy(Get(m3, "source_display")) {
      GetAfterSet(m3, "source_display", DisplayFor(SourceTypeOr(Get(m3, "source_type"))), k);
    }
  }

  /** Every chunk carries its position in the output as `chunk_index`, and
      the splitter's text and order are kept. */
  lemma ChunkedIndex(split: seq<Document>, i: nat)
    requires i < |split|
    ensures Chunked(split)[i].pageContent == split[i].pageContent
    ensures Get(Chunked(split)[i].metadata, "chunk_index") == Some(Num(i as real))
  {
    StampGet(split[i].metadata, i, "chunk_index");
  }

  /** `access_level` is "public" on every chunk, whatever it was before, so
      the retriever's default filter keeps every chunk. */
  lemma ChunkedPublic(split: seq<Document>, i: nat)
    requires i < |split|
    ensures Get(Chunked(split)[i].metadata, "access_level") == Some(Str("public"))
    ensures ApplyMetadataFilter(Chunked(split)[i], PublicOnly)
  {
    StampGet(split[i].metadata, i, "access_level");
    PublicOnlyAccepts(Chunked(split)[i]);
  }

  /** A truthy `source_type` is kept; anything else becomes "unknown". */
  lemma ChunkedSourceType(split: seq<Document>, i: nat)
    requires i < |split|
    ensures var before := Get(split[i].metadata, "source_type");
      Get(Chunked(split)[i].metadata, "source_type") ==
        if before.Some? && Truthy(before.value) then before else Some(Str("unknown"))
  {
    StampGet(split[i].metadata, i, "source_type");
  }

  /** A truthy `source_display` is kept; otherwise it names an audio
      transcript when the source type is "audio" and an unknown source else. */
  lemma ChunkedSourceDisplay(split: seq<Document>, i: nat)
    requires i < |split|
    ensures var md := split[i].metadata;
      var before := Get(md, "source_display");
      Get(Chunked(split)[i].metadata, "source_display") ==
        if before.Some? && Truthy(before.value) then before
        else if Get(md, "source_type") == Some(Str("audio")) then Some(Str("Audio Transcript"))
        else Some(Str("Unknown Source"))
  {
    StampGet(split[i].metadata, i, "source_display");
  }

  /** No metadata key other than the four stamped ones changes. */
  lemma ChunkedOthers(split: seq<Document>, i: nat, k: string)
    requires i < |split|
    requires k != "chunk_index" && k != "source_type" && k != "access_level" && k != "source_display"
    ensures Get(Chunked(split)[i].metadata, k) == Get(split[i].metadata, k)
  {
    StampGet(split[i].metadata, i, k);
  }
}
