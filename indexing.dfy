/**
  * The metadata clean-up done before documents are handed to the vector
  * store: every value the store cannot hold is turned into its string form.
  * The store itself and the embedding model are not modelled.
  */
module Indexing {
  import opened Wrappers
  import opened Text
  import opened Js
  import opened DocFilter
  import Chunking

  /** The values kept as they are: strings, numbers, booleans and `null`. */
  predicate Primitive(v: Value) {
    v.Str? || v.Num? || v.Bool? || v.Null?
  }

  /** `String(value)`.  Number formatting, `Number.prototype.toString`, is the
      parameter `numText`.  An array joins its elements with "," and writes
      `null` and `undefined` elements as ""; a plain object is
      "[object Object]". */
  function StringOf(v: Value, numText: real -> string): string
    decreases v
  {
    match v
    case Undefined => "undefined"
    case Null => "null"
    case Bool(b) => if b then "true" else "false"
    case Num(n) => numText(n)
    case Str(s) => s
    case Arr(_, items) =>
      Join(seq(|items|, i requires 0 <= i < |items| =>
        if items[i].Undefined? || items[i].Null? then "" else StringOf(items[i], numText)), ",")
    case Obj(_, _) => "[object Object]"
  }

  /** One value as `sanitizeMetadata` stores it. */
  function SanitizeValue(v: Value, numText: real -> string): (r: Value)
    ensures Primitive(r)
    ensures Primitive(v) ==> r == v
    ensures !Primitive(v) ==> r == Str(StringOf(v, numText))
  {
    if Primitive(v) then v else Str(StringOf(v, numText))
  }

  /** The dictionary `sanitizeMetadata` builds: the same keys in the same
      order, each with its sanitised value. */
  function Sanitized(md: Dict<Value>, numText: real -> string): (r: Dict<Value>)
    ensures |r| == |md|
  {
    seq(|md|, i requires 0 <= i < |md| => (md[i].0, SanitizeValue(md[i].1, numText)))
  }

  /** `sanitizeMetadata`: a loop over `Object.entries(metadata)` filling a
      fresh object.  The entries of an object have distinct keys. */
  method SanitizeMetadata(md: Dict<Value>, numText: real -> string) returns (sanitized: Dict<Value>)
    requires UniqueKeys(md)
    ensures sanitized == Sanitized(md, numText)
  {
    sanitized := [];
    var i := 0;
    while i < |md|
      invariant 0 <= i <= |md|
      invariant sanitized == Sanitized(md[..i], numText)
    {
      var (key, value) := md[i];
      KeysPrefix(md, i, numText);
      SetAppends(sanitized, key, SanitizeValue(value, numText));
      sanitized := Set(sanitized, key, SanitizeValue(value, numText));
      assert md[..i + 1] == md[..i] + [md[i]];
      i := i + 1;
    }
    assert md[..|md|] == md;
  }

  /** A key of a later entry is not among the keys written so far. */
  lemma KeysPrefix(md: Dict<Value>, i: nat, numText: real -> string)
    requires UniqueKeys(md) && i < |md|
    ensures !HasKey(Sanitized(md[..i], numText), md[i].0)
  {
    var ks := Keys(Sanitized(md[..i], numText));
    forall j | 0 <= j < |ks| ensures ks[j] != md[i].0 {
      assert ks[j] == md[j].0;
    }
  }

  /** The sanitised metadata has exactly the keys of the original, in order. */
  lemma SanitizedKeys(md: Dict<Value>, numText: real -> string)
    ensures Keys(Sanitized(md, numText)) == Keys(md)
  {
    var a := Keys(Sanitized(md, numText));
    var b := Keys(md);
    assert forall j :: 0 <= j < |a| ==> a[j] == b[j];
  }

  /** Reading a key of the sanitised metadata reads the original and
      sanitises it. */
  lemma {:induction false} SanitizedGet(md: Dict<Value>, k: string, numText: real -> string)
    ensures Get(Sanitized(md, numText), k) ==
      if Get(md, k).Some? then Some(SanitizeValue(Get(md, k).value, numText)) else None
  {
    if md != [] {
      var s := Sanitized(md, numText);
      assert s[1..] == Sanitized(md[1..], numText);
      SanitizedGet(md[1..], k, numText);
    }
  }

  /** Strings, numbers, booleans and `null` pass through unchanged; every
      value afterwards is one of those. */
  lemma SanitizedValues(md: Dict<Value>, numText: real -> string, i: nat)
    requires i < |md|
    ensures Primitive(Sanitized(md, numText)[i].1)
    ensures Primitive(md[i].1) ==> Sanitized(md, numText)[i] == md[i]
    ensures !Primitive(md[i].1) ==> Sanitized(md, numText)[i] == (md[i].0, Str(StringOf(md[i].1, numText)))
  {
  }

  /** Sanitising twice is sanitising once. */
  lemma SanitizeIdempotent(md: Dict<Value>, numText: real -> string)
    ensures Sanitized(Sanitized(md, numText), numText) == Sanitized(md, numText)
  {
    var once := Sanitized(md, numText);
    assert forall i :: 0 <= i < |once| ==> SanitizeValue(once[i].1, numText) == once[i].1;
  }

  /** The documents handed to the vector store by `buildVectorStoreInMemory`. */
  function SanitizeDocuments(docs: seq<Document>, numText: real -> string): (r: seq<Document>)
    ensures |r| == |docs|
  {
    seq(|docs|, i requires 0 <= i < |docs| => Document(docs[i].pageContent, Sanitized(docs[i].metadata, numText)))
  }

  /** Count, order and text are kept; only metadata changes. */
  lemma SanitizeDocumentsKeeps(docs: seq<Document>, numText: real -> string, i: nat)
    requires i < |docs|
    ensures SanitizeDocuments(docs, numText)[i].pageContent == docs[i].pageContent
    ensures Keys(SanitizeDocuments(docs, numText)[i].metadata) == Keys(docs[i].metadata)
  {
    SanitizedKeys(docs[i].metadata, numText);
  }

  /** A document the default filter accepts is still accepted after
      sanitising.  (The converse fails: an array `["public"]` becomes the
      string "public".) */
  lemma SanitizeKeepsPublic(d: Document, numText: real -> string)
    requires ApplyMetadataFilter(d, PublicOnly)
    ensures ApplyMetadataFilter(Document(d.pageContent, Sanitized(d.metadata, numText)), PublicOnly)
  {
    PublicOnlyAccepts(d);
    SanitizedGet(d.metadata, "access_level", numText);
    PublicOnlyAccepts(Document(d.pageContent, Sanitized(d.metadata, numText)));
  }

  /** The string form can make a document pass the default filter that did
      not pass before. */
  lemma SanitizeCanAdmit(numText: real -> string)
    ensures var d := Document("", [("access_level", Arr(0, [Str("public")]))]);
      !ApplyMetadataFilter(d, PublicOnly) &&
      ApplyMetadataFilter(Document(d.pageContent, Sanitized(d.metadata, numText)), PublicOnly)
  {
    var d := Document("", [("access_level", Arr(0, [Str("public")]))]);
    PublicOnlyAccepts(d);
    var items := [Str("public")];
    assert seq(|items|, i requires 0 <= i < |items| =>
        if items[i].Undefined? || items[i].Null? then "" else StringOf(items[i], numText)) == ["public"];
    assert Join(["public"], ",") == "public";
    SanitizedGet(d.metadata, "access_level", numText);
    PublicOnlyAccepts(Document(d.pageContent, Sanitized(d.metadata, numText)));
  }

  /** Every chunk of the pipeline still passes the default filter after
      sanitising. */
  lemma ChunksStayPublic(split: seq<Document>, numText: real -> string, i: nat)
    requires i < |split|
    ensures ApplyMetadataFilter(SanitizeDocuments(Chunking.Chunked(split), numText)[i], PublicOnly)
  {
    Chunking.ChunkedPublic(split, i);
    SanitizeKeepsPublic(Chunking.Chunked(split)[i], numText);
  }
}
