/**
  * `HybridRetriever`: reciprocal-rank fusion of a vector search and a BM25
  * search over the expanded query, with an LRU cache of results. Both
  * searches are external and are given to the retriever as functions that
  * return a ranked list or throw.
  */
module Hybrid {
  import opened Wrappers
  import opened Js
  import opened Retrieval
  import opened DocFilter
  import opened Lru

  /** The fusion offset: rank `r` (from 0) contributes `w / (60 + r + 1)`. */
  const RankOffset: nat := 60

  function Contribution(w: real, rank: nat): real {
    w / (RankOffset + rank + 1) as real
  }

  /** The fused score a list gives a fingerprint: the contributions of every
      rank at which a document with that fingerprint occurs. */
  function RankSum(key: Fingerprint, docs: seq<Document>, w: real, keyOf: Document -> Fingerprint): real
    decreases |docs|
  {
    if docs == [] then 0.0
    else
      var last := |docs| - 1;
      RankSum(key, docs[..last], w, keyOf) + (if keyOf(docs[last]) == key then Contribution(w, last) else 0.0)
  }

  /** Whether some document of the list has the fingerprint. */
  predicate Listed(key: Fingerprint, docs: seq<Document>, keyOf: Document -> Fingerprint) {
    exists i :: 0 <= i < |docs| && keyOf(docs[i]) == key
  }

  /** A fingerprint that no document of the list has scores nothing there. */
  lemma {:induction false} RankSumAbsent(key: Fingerprint, docs: seq<Document>, w: real, keyOf: Document -> Fingerprint)
    requires forall i :: 0 <= i < |docs| ==> keyOf(docs[i]) != key
    ensures RankSum(key, docs, w, keyOf) == 0.0
    decreases |docs|
  {
    if docs != [] {
      RankSumAbsent(key, docs[..|docs| - 1], w, keyOf);
    }
  }

  /** With a positive weight, a fingerprint that occurs scores more than nothing. */
  lemma {:induction false} RankSumPositive(key: Fingerprint, docs: seq<Document>, w: real, i: nat, keyOf: Document -> Fingerprint)
    requires w > 0.0 && i < |docs| && keyOf(docs[i]) == key
    ensures RankSum(key, docs, w, keyOf) > 0.0
    decreases |docs|
  {
    var last := |docs| - 1;
    if i < last {
      RankSumPositive(key, docs[..last], w, i, keyOf);
    } else {
      RankSumNonNegative(key, docs[..last], w, keyOf);
    }
  }

  lemma {:induction false} RankSumNonNegative(key: Fingerprint, docs: seq<Document>, w: real, keyOf: Document -> Fingerprint)
    requires w >= 0.0
    ensures RankSum(key, docs, w, keyOf) >= 0.0
    decreases |docs|
  {
    if docs != [] {
      RankSumNonNegative(key, docs[..|docs| - 1], w, keyOf);
    }
  }

  /** An entry of `docScores`: the fingerprint, the document kept for it and
      its running score. */
  datatype Scored = Scored(key: Fingerprint, doc: Document, score: real)

  function KeysOf(s: seq<Scored>): (ks: seq<Fingerprint>)
    ensures |ks| == |s| && forall i :: 0 <= i < |s| ==> ks[i] == s[i].key
  {
    if s == [] then [] else [s[0].key] + KeysOf(s[1..])
  }

  predicate DistinctKeys(s: seq<Scored>) {
    forall i, j :: 0 <= i < j < |s| ==> s[i].key != s[j].key
  }

  /** `docScores.get(key)?.score`, 0 for an absent key. */
  function ScoreOf(s: seq<Scored>, key: Fingerprint): real {
    if s == [] then 0.0
    else if s[0].key == key then s[0].score
    else ScoreOf(s[1..], key)
  }

  /** `if (!docScores.has(key)) docScores.set(key, {doc, score: 0}); entry.score += c`:
      an existing entry keeps its place and its document. */
  function AddScore(s: seq<Scored>, key: Fingerprint, doc: Document, c: real): (r: seq<Scored>)
    ensures |r| == if key in KeysOf(s) then |s| else |s| + 1
  {
    if s == [] then [Scored(key, doc, c)]
    else if s[0].key == key then [s[0].(score := s[0].score + c)] + s[1..]
    else
      assert KeysOf(s) == [s[0].key] + KeysOf(s[1..]);
      [s[0]] + AddScore(s[1..], key, doc, c)
  }

  /** Adding to one entry changes only that entry's score, by exactly `c`. */
  lemma {:induction false} AddScoreScore(s: seq<Scored>, key: Fingerprint, doc: Document, c: real, key': Fingerprint)
    ensures ScoreOf(AddScore(s, key, doc, c), key') == ScoreOf(s, key') + (if key' == key then c else 0.0)
  {
    if s != [] && s[0].key != key {
      AddScoreScore(s[1..], key, doc, c, key');
      assert ([s[0]] + AddScore(s[1..], key, doc, c))[1..] == AddScore(s[1..], key, doc, c);
    } else if s != [] {
      assert ([s[0].(score := s[0].score + c)] + s[1..])[1..] == s[1..];
    }
  }

  /** The keys after adding: the old ones in their order, and `key` last
      when it is new; keys stay distinct. */
  lemma {:induction false} AddScoreKeys(s: seq<Scored>, key: Fingerprint, doc: Document, c: real)
    ensures KeysOf(AddScore(s, key, doc, c)) == if key in KeysOf(s) then KeysOf(s) else KeysOf(s) + [key]
  {
    if s != [] {
      assert KeysOf(s) == [s[0].key] + KeysOf(s[1..]);
      if s[0].key != key {
        AddScoreKeys(s[1..], key, doc, c);
        var r := AddScore(s[1..], key, doc, c);
        assert KeysOf([s[0]] + r) == [s[0].key] + KeysOf(r);
      } else {
        assert KeysOf([s[0].(score := s[0].score + c)] + s[1..]) == [key] + KeysOf(s[1..]);
      }
    }
  }

  /** One `forEach` of `_getRelevantDocuments` over a ranked list. For a new
      key the document stored is `chosen[key]` when present, else the
      listed document. */
  function Accumulate(s: seq<Scored>, docs: seq<Document>, w: real, chosen: map<Fingerprint, Document>, keyOf: Document -> Fingerprint): seq<Scored>
    decreases |docs|
  {
    if docs == [] then s
    else
      var last := |docs| - 1;
      var key := keyOf(docs[last]);
      AddScore(Accumulate(s, docs[..last], w, chosen, keyOf), key, if key in chosen then chosen[key] else docs[last], Contribution(w, last))
  }

  /** Each key's score grows by exactly the rank sum of the list. */
  lemma {:induction false} AccumulateScore(s: seq<Scored>, docs: seq<Document>, w: real, chosen: map<Fingerprint, Document>, key: Fingerprint, keyOf: Document -> Fingerprint)
    ensures ScoreOf(Accumulate(s, docs, w, chosen, keyOf), key) == ScoreOf(s, key) + RankSum(key, docs, w, keyOf)
    decreases |docs|
  {
    if docs != [] {
      var last := |docs| - 1;
      var k := keyOf(docs[last]);
      AccumulateScore(s, docs[..last], w, chosen, key, keyOf);
      AddScoreScore(Accumulate(s, docs[..last], w, chosen, keyOf), k, if k in chosen then chosen[k] else docs[last], Contribution(w, last), key);
    }
  }

  /** The keys after the loop: the old ones, then each new fingerprint in
      order of first occurrence. */
  lemma {:induction false} AccumulateKeys(s: seq<Scored>, docs: seq<Document>, w: real, chosen: map<Fingerprint, Document>, keyOf: Document -> Fingerprint)
    ensures KeysOf(s) <= KeysOf(Accumulate(s, docs, w, chosen, keyOf))
    ensures forall key :: key in KeysOf(Accumulate(s, docs, w, chosen, keyOf)) <==>
      key in KeysOf(s) || Listed(key, docs, keyOf)
    ensures Distinct(KeysOf(s)) ==> Distinct(KeysOf(Accumulate(s, docs, w, chosen, keyOf)))
    decreases |docs|
  {
    if docs != [] {
      var last := |docs| - 1;
      var k := keyOf(docs[last]);
      var prev := Accumulate(s, docs[..last], w, chosen, keyOf);
      AccumulateKeys(s, docs[..last], w, chosen, keyOf);
      AddScoreKeys(prev, k, if k in chosen then chosen[k] else docs[last], Contribution(w, last));
      ListedLast(docs, keyOf);
      KeysStep(KeysOf(s), KeysOf(prev), KeysOf(Accumulate(s, docs, w, chosen, keyOf)), k);
    }
  }

  /** Adding a key when it is new keeps the earlier keys as a prefix and
      keeps them distinct. */
  lemma KeysStep(before: seq<Fingerprint>, prev: seq<Fingerprint>, next: seq<Fingerprint>, k: Fingerprint)
    requires before <= prev
    requires next == if k in prev then prev else prev + [k]
    ensures before <= next
    ensures forall key :: key in next <==> key in prev || key == k
    ensures Distinct(prev) ==> Distinct(next)
  {
    if k !in prev {
      DistinctAppend(prev, k);
    }
  }

  /** A fingerprint is listed when it is listed before the last document or
      is the last document's. */
  lemma ListedLast(docs: seq<Document>, keyOf: Document -> Fingerprint)
    requires docs != []
    ensures forall key :: Listed(key, docs, keyOf) <==>
      Listed(key, docs[..|docs| - 1], keyOf) || keyOf(docs[|docs| - 1]) == key
  {
    var last := |docs| - 1;
    forall key | Listed(key, docs, keyOf) && keyOf(docs[last]) != key ensures Listed(key, docs[..last], keyOf) {
      var i :| 0 <= i < |docs| && keyOf(docs[i]) == key;
      assert docs[..last][i] == docs[i];
    }
    forall key | Listed(key, docs[..last], keyOf) ensures Listed(key, docs, keyOf) {
      var i :| 0 <= i < last && keyOf(docs[..last][i]) == key;
      assert docs[..last][i] == docs[i];
    }
  }

  lemma DistinctAppend(ks: seq<Fingerprint>, k: Fingerprint)
    requires k !in ks
    ensures Distinct(ks) ==> Distinct(ks + [k])
  {
  }

  predicate Distinct(ks: seq<Fingerprint>) {
    forall i, j :: 0 <= i < j < |ks| ==> ks[i] != ks[j]
  }

  /** `vectorDocMap`: for each fingerprint in the vector list, the indexed
      document with that fingerprint, else the last listed one. */
  function VectorDocMap(docs: seq<Document>, index: map<Fingerprint, Document>, keyOf: Document -> Fingerprint): (m: map<Fingerprint, Document>)
    ensures forall key :: key in m <==> Listed(key, docs, keyOf)
    decreases |docs|
  {
    if docs == [] then map[]
    else
      var last := |docs| - 1;
      var key := keyOf(docs[last]);
      var m := VectorDocMap(docs[..last], index, keyOf);
      assert forall i :: 0 <= i < last ==> docs[..last][i] == docs[i];
      m[key := if key in index then index[key] else docs[last]]
  }

  /** A fingerprint of the vector list maps to its indexed document when
      the index has one, and otherwise to the last vector result with that
      fingerprint. */
  lemma {:induction false} VectorDocMapValues(docs: seq<Document>, index: map<Fingerprint, Document>, keyOf: Document -> Fingerprint, i: nat)
    requires i < |docs|
    requires forall j :: i < j < |docs| ==> keyOf(docs[j]) != keyOf(docs[i])
    ensures keyOf(docs[i]) in VectorDocMap(docs, index, keyOf)
    ensures VectorDocMap(docs, index, keyOf)[keyOf(docs[i])] ==
      if keyOf(docs[i]) in index then index[keyOf(docs[i])] else docs[i]
    decreases |docs|
  {
    var last := |docs| - 1;
    if i < last {
      assert docs[..last][i] == docs[i];
      assert forall j :: i < j < last ==> docs[..last][j] == docs[j];
      VectorDocMapValues(docs[..last], index, keyOf, i);
    }
  }

  /** `docScores` after both loops. */
  function Fused(vec: seq<Document>, bm25: seq<Document>, vw: real, bw: real, index: map<Fingerprint, Document>, keyOf: Document -> Fingerprint): seq<Scored> {
    Accumulate(Accumulate([], vec, vw, VectorDocMap(vec, index, keyOf), keyOf), bm25, bw, map[], keyOf)
  }

  /** Every fingerprint of either list has one entry, whose score is the sum
      of its reciprocal ranks in both lists, weighted. */
  lemma FusedScores(vec: seq<Document>, bm25: seq<Document>, vw: real, bw: real, index: map<Fingerprint, Document>, keyOf: Document -> Fingerprint)
    ensures var f := Fused(vec, bm25, vw, bw, index, keyOf);
      && Distinct(KeysOf(f))
      && (forall key :: key in KeysOf(f) <==>
            Listed(key, vec, keyOf) || Listed(key, bm25, keyOf))
      && (forall i :: 0 <= i < |f| ==> f[i].score == RankSum(f[i].key, vec, vw, keyOf) + RankSum(f[i].key, bm25, bw, keyOf))
  {
    var v := Accumulate([], vec, vw, VectorDocMap(vec, index, keyOf), keyOf);
    var f := Fused(vec, bm25, vw, bw, index, keyOf);
    AccumulateKeys([], vec, vw, VectorDocMap(vec, index, keyOf), keyOf);
    AccumulateKeys(v, bm25, bw, map[], keyOf);
    forall i | 0 <= i < |f| ensures f[i].score == RankSum(f[i].key, vec, vw, keyOf) + RankSum(f[i].key, bm25, bw, keyOf) {
      var key := f[i].key;
      AccumulateScore([], vec, vw, VectorDocMap(vec, index, keyOf), key, keyOf);
      AccumulateScore(v, bm25, bw, map[], key, keyOf);
      ScoreOfDistinct(f, i);
    }
  }

  /** With distinct keys, `ScoreOf` reads the one entry of its key. */
  lemma {:induction false} ScoreOfDistinct(s: seq<Scored>, i: nat)
    requires Distinct(KeysOf(s)) && i < |s|
    ensures ScoreOf(s, s[i].key) == s[i].score
  {
    if i > 0 {
      assert KeysOf(s)[0] != KeysOf(s)[i];
      assert Distinct(KeysOf(s[1..])) by {
        forall a, b | 0 <= a < b < |s| - 1 ensures KeysOf(s[1..])[a] != KeysOf(s[1..])[b] {
          assert KeysOf(s)[a + 1] != KeysOf(s)[b + 1];
        }
      }
      ScoreOfDistinct(s[1..], i - 1);
    }
  }

  /** Whether the scores never increase along the list. */
  predicate Descending(s: seq<Scored>) {
    forall i, j :: 0 <= i < j < |s| ==> s[i].score >= s[j].score
  }

  /** Insert `x` after every entry scoring at least as much: the stable
      place for an entry that came later. */
  function InsertByScore(sorted: seq<Scored>, x: Scored): (r: seq<Scored>)
    ensures multiset(r) == multiset(sorted) + multiset{x}
    ensures Descending(sorted) ==> Descending(r)
    decreases |sorted|
  {
    if sorted == [] then [x]
    else
      var last := sorted[|sorted| - 1];
      if last.score >= x.score then sorted + [x]
      else
        var front := sorted[..|sorted| - 1];
        var r := InsertByScore(front, x);
        InsertBeforeLast(sorted, x, r);
        r + [last]
  }

  /** The step of `InsertByScore` that puts the last entry back after the
      front part with `x` inserted. */
  lemma InsertBeforeLast(sorted: seq<Scored>, x: Scored, r: seq<Scored>)
    requires sorted != [] && sorted[|sorted| - 1].score < x.score
    requires multiset(r) == multiset(sorted[..|sorted| - 1]) + multiset{x}
    requires Descending(sorted[..|sorted| - 1]) ==> Descending(r)
    ensures multiset(r + [sorted[|sorted| - 1]]) == multiset(sorted) + multiset{x}
    ensures Descending(sorted) ==> Descending(r + [sorted[|sorted| - 1]])
  {
    var front, last := sorted[..|sorted| - 1], sorted[|sorted| - 1];
    assert sorted == front + [last];
    if Descending(sorted) {
      forall i | 0 <= i < |r| ensures r[i].score >= last.score {
        assert r[i] in multiset(r);
        if r[i] != x {
          assert r[i] in multiset(front);
          assert r[i] in front;
        }
      }
    }
  }

  /** `.sort((a, b) => b.score - a.score)`: a stable sort by descending score. */
  function SortByScore(s: seq<Scored>): (r: seq<Scored>)
    ensures multiset(r) == multiset(s)
    ensures Descending(r)
    decreases |s|
  {
    if s == [] then []
    else
      assert s == s[..|s| - 1] + [s[|s| - 1]];
      InsertByScore(SortByScore(s[..|s| - 1]), s[|s| - 1])
  }

  /** The documents of the first `k` entries: `.slice(0, k).map(item => item.doc)`. */
  function TopDocs(ranked: seq<Scored>, k: int): (docs: seq<Document>)
    ensures |docs| == SliceEnd(|ranked|, k)
    ensures forall i :: 0 <= i < |docs| ==> docs[i] == ranked[i].doc
  {
    var n := SliceEnd(|ranked|, k);
    seq(n, i requires 0 <= i < n => ranked[i].doc)
  }

  /** `vectorDocs.filter(doc => applyMetadataFilter(doc, filter))` */
  function FilterDocs(docs: seq<Document>, filter: Dict<Value>): (r: seq<Document>)
    ensures |r| <= |docs|
    ensures forall d :: d in r <==> d in docs && ApplyMetadataFilter(d, filter)
  {
    if docs == [] then []
    else
      var rest := FilterDocs(docs[1..], filter);
      assert forall d :: d in docs <==> d == docs[0] || d in docs[1..];
      if ApplyMetadataFilter(docs[0], filter) then [docs[0]] + rest else rest
  }

  /** Filtering only when the filter has keys: an empty filter keeps all. */
  function Filtered(docs: seq<Document>, filter: Dict<Value>): seq<Document> {
    if |filter| > 0 then FilterDocs(docs, filter) else docs
  }

  /** The fused ranking of the filtered lists, best first. */
  function Ranking(vec: seq<Document>, bm25: seq<Document>, vw: real, bw: real,
                   filter: Dict<Value>, index: map<Fingerprint, Document>, keyOf: Document -> Fingerprint): seq<Scored> {
    SortByScore(Fused(Filtered(vec, filter), Filtered(bm25, filter), vw, bw, index, keyOf))
  }

  /** The ranking is best first, holds each fingerprint of the filtered lists
      once, and scores each with its weighted reciprocal ranks. */
  lemma RankingSpec(vec: seq<Document>, bm25: seq<Document>, vw: real, bw: real,
                    filter: Dict<Value>, index: map<Fingerprint, Document>, keyOf: Document -> Fingerprint)
    ensures var r := Ranking(vec, bm25, vw, bw, filter, index, keyOf);
      var v := Filtered(vec, filter);
      var b := Filtered(bm25, filter);
      && Descending(r)
      && (forall i :: 0 <= i < |r| ==> r[i].score == RankSum(r[i].key, v, vw, keyOf) + RankSum(r[i].key, b, bw, keyOf))
      && (forall key :: key in KeysOf(r) <==> Listed(key, v, keyOf) || Listed(key, b, keyOf))
  {
    var v := Filtered(vec, filter);
    var b := Filtered(bm25, filter);
    var f := Fused(v, b, vw, bw, index, keyOf);
    FusedScores(v, b, vw, bw, index, keyOf);
    PermutationKeys(SortByScore(f), f);
    PermutationScores(SortByScore(f), f, v, b, vw, bw, keyOf);
  }

  /** Reordering entries keeps the set of keys. */
  lemma PermutationKeys(r: seq<Scored>, f: seq<Scored>)
    requires multiset(r) == multiset(f)
    ensures forall key :: key in KeysOf(r) <==> key in KeysOf(f)
  {
    forall key | key in KeysOf(r) ensures key in KeysOf(f) {
      var i :| 0 <= i < |r| && KeysOf(r)[i] == key;
      assert r[i] in multiset(f);
      var j :| 0 <= j < |f| && f[j] == r[i];
      assert KeysOf(f)[j] == key;
    }
    forall key | key in KeysOf(f) ensures key in KeysOf(r) {
      var j :| 0 <= j < |f| && KeysOf(f)[j] == key;
      assert f[j] in multiset(r);
      var i :| 0 <= i < |r| && r[i] == f[j];
      assert KeysOf(r)[i] == key;
    }
  }

  /** Reordering entries keeps each entry's score. */
  lemma PermutationScores(r: seq<Scored>, f: seq<Scored>, v: seq<Document>, b: seq<Document>,
                          vw: real, bw: real, keyOf: Document -> Fingerprint)
    requires multiset(r) == multiset(f)
    requires forall i :: 0 <= i < |f| ==> f[i].score == RankSum(f[i].key, v, vw, keyOf) + RankSum(f[i].key, b, bw, keyOf)
    ensures forall i :: 0 <= i < |r| ==> r[i].score == RankSum(r[i].key, v, vw, keyOf) + RankSum(r[i].key, b, bw, keyOf)
  {
    forall i | 0 <= i < |r| ensures r[i].score == RankSum(r[i].key, v, vw, keyOf) + RankSum(r[i].key, b, bw, keyOf) {
      assert r[i] in multiset(f);
      var j :| 0 <= j < |f| && f[j] == r[i];
    }
  }

  /** What a search without a cache hit returns: the error of the first
      search that throws, else the first `k` documents of the ranking. */
  function Uncached(vectorResult: Result<seq<Document>, JsError>, bm25Result: Result<seq<Document>, JsError>,
                    k: int, vw: real, bw: real, filter: Dict<Value>, index: map<Fingerprint, Document>, keyOf: Document -> Fingerprint): Result<seq<Document>, JsError>
  {
    if vectorResult.Failure? then Failure(vectorResult.error)
    else if bm25Result.Failure? then Failure(bm25Result.error)
    else Success(TopDocs(Ranking(vectorResult.value, bm25Result.value, vw, bw, filter, index, keyOf), k))
  }

  /** A successful uncached search returns at most `k` documents (when `k`
      is not negative), best first: every returned document scores at
      least as much as every fused document left out. */
  lemma UncachedTopK(vec: seq<Document>, bm25: seq<Document>, k: int, vw: real, bw: real,
                     filter: Dict<Value>, index: map<Fingerprint, Document>, keyOf: Document -> Fingerprint)
    ensures var r := Ranking(vec, bm25, vw, bw, filter, index, keyOf);
      var docs := TopDocs(r, k);
      && (k >= 0 ==> |docs| <= k)
      && (forall i, j :: 0 <= i < |docs| <= j < |r| ==> r[i].score >= r[j].score)
  {
    RankingSpec(vec, bm25, vw, bw, filter, index, keyOf);
  }

  /** `documents.forEach(doc => docKeyToDoc.set(docKey(doc), doc))` */
  function IndexDocuments(docs: seq<Document>, keyOf: Document -> Fingerprint): (m: map<Fingerprint, Document>)
    decreases |docs|
  {
    if docs == [] then map[] else IndexDocuments(docs[..|docs| - 1], keyOf)[keyOf(docs[|docs| - 1]) := docs[|docs| - 1]]
  }

  /** The index maps exactly the fingerprints of the documents. */
  lemma {:induction false} IndexDocumentsKeys(docs: seq<Document>, keyOf: Document -> Fingerprint)
    ensures forall key :: key in IndexDocuments(docs, keyOf) <==> Listed(key, docs, keyOf)
    decreases |docs|
  {
    if docs != [] {
      IndexDocumentsKeys(docs[..|docs| - 1], keyOf);
      ListedLast(docs, keyOf);
    }
  }

  /** A fingerprint maps to the last document that has it. */
  lemma {:induction false} IndexDocumentsLast(docs: seq<Document>, keyOf: Document -> Fingerprint, i: nat)
    requires i < |docs|
    requires forall j :: i < j < |docs| ==> keyOf(docs[j]) != keyOf(docs[i])
    ensures keyOf(docs[i]) in IndexDocuments(docs, keyOf)
    ensures IndexDocuments(docs, keyOf)[keyOf(docs[i])] == docs[i]
    decreases |docs|
  {
    var last := |docs| - 1;
    if i < last {
      assert docs[..last][i] == docs[i];
      assert forall j :: i < j < last ==> docs[..last][j] == docs[j];
      IndexDocumentsLast(docs[..last], keyOf, i);
    }
  }

  /** The key under which a result list is cached: `JSON.stringify` of the
      expanded query and the retriever's settings, kept symbolic. */
  datatype CacheKey = CacheKey(q: string, k: int, vw: real, bw: real, f: Dict<Value>)

  /** A vector search: query, number of results and filter. */
  type VectorSearch = (string, int, Dict<Value>) -> Result<seq<Document>, JsError>

  /** A BM25 search over the documents it was built from. */
  type Bm25Search = string -> Result<seq<Document>, JsError>

  class HybridRetriever {
    const k: int
    const vectorWeight: real
    const bm25Weight: real
    const metadataFilter: Dict<Value>
    const vectorSearch: VectorSearch
    const bm25: Bm25Search
    const queryExpansions: QueryExpansions
    const cache: LruCache<CacheKey, seq<Document>>
    const docKeyFunc: Document -> Fingerprint
    var docKeyToDoc: map<Fingerprint, Document>
    /** How many times a search has been started. */
    ghost var indexCalls: nat

    ghost predicate Valid()
      reads this, cache
    {
      cache.Valid()
    }

    /** The BM25 index is built over the documents with `k * 4` results; the
        fingerprint index maps each fingerprint to its last document. */
    constructor(
      vectorSearch: VectorSearch, documents: seq<Document>, k: int, vectorWeight: real, bm25Weight: real,
      metadataFilter: Dict<Value>, queryExpansionsPath: Option<string>, queryExpansions: Option<QueryExpansions>,
      readJson: string -> Option<Json>, bm25FromDocuments: (seq<Document>, int) -> Bm25Search)
      ensures Valid() && fresh(cache) && cache.entries == [] && cache.maxSize == 256
      ensures this.k == k && this.vectorWeight == vectorWeight && this.bm25Weight == bm25Weight
      ensures this.metadataFilter == metadataFilter && this.vectorSearch == vectorSearch
      ensures this.queryExpansions == LoadQueryExpansionsConfig(queryExpansionsPath, queryExpansions, readJson)
      ensures bm25 == bm25FromDocuments(documents, k * 4)
      ensures docKeyFunc == DocKey
      ensures docKeyToDoc == IndexDocuments(documents, DocKey)
      ensures indexCalls == 0
    {
      this.vectorSearch := vectorSearch;
      this.k := k;
      this.vectorWeight := vectorWeight;
      this.bm25Weight := bm25Weight;
      this.metadataFilter := metadataFilter;
      cache := new LruCache(256);
      this.queryExpansions := LoadQueryExpansionsConfig(queryExpansionsPath, queryExpansions, readJson);
      bm25 := bm25FromDocuments(documents, k * 4);
      indexCalls := 0;
      docKeyFunc := DocKey;
      new;
      docKeyToDoc := map[];
      for i := 0 to |documents|
        invariant docKeyToDoc == IndexDocuments(documents[..i], docKeyFunc)
        invariant cache.Valid() && cache.entries == [] && indexCalls == 0
      {
        assert documents[..i + 1][..i] == documents[..i];
        docKeyToDoc := docKeyToDoc[docKeyFunc(documents[i]) := documents[i]];
      }
      assert documents[..|documents|] == documents;
    }

    function KeyFor(expanded: string): CacheKey
      reads this
    {
      CacheKey(expanded, k, vectorWeight, bm25Weight, metadataFilter)
    }

    /** `_getRelevantDocuments`. A query whose expansion throws rejects
        before the cache is consulted or any search runs.  A cached list,
        even an empty one, is returned without searching; otherwise both
        searches run in turn, and the result is cached only when both
        succeed. */
    method GetRelevantDocuments(query: string) returns (r: Result<seq<Document>, JsError>)
      requires Valid()
      modifies this`indexCalls, cache
      ensures Valid()
      ensures var expanded := ExpansionAsWritten(query, queryExpansions);
        if expanded.Failure? then
          r == Failure(expanded.error) && indexCalls == old(indexCalls) && cache.entries == old(cache.entries)
        else
          var key := KeyFor(expanded.value);
          var hit := Lookup(old(cache.entries), key);
          if hit.Some? then
            r == Success(hit.value) && indexCalls == old(indexCalls) && cache.entries == AfterGet(old(cache.entries), key)
          else
            && r == SearchResult(key.q)
            && indexCalls == old(indexCalls) + (if vectorSearch(key.q, k * 4, metadataFilter).Failure? then 1 else 2)
            && cache.entries == if r.Success? then AfterSet(old(cache.entries), cache.maxSize, key, r.value) else old(cache.entries)
    {
      var expanded := ExpandQuery(query, queryExpansions);
      if expanded.Failure? {
        return Failure(expanded.error);
      }
      var cacheKey := KeyFor(expanded.value);
      var cached := cache.Get(cacheKey);
      if cached.Some? {
        return Success(cached.value);
      }
      r := Search(expanded.value);
      if r.Success? {
        cache.Set(cacheKey, r.value);
      }
    }

    /** What a search of the expanded query returns without the cache. */
    function SearchResult(expanded: string): Result<seq<Document>, JsError>
      reads this
    {
      Uncached(vectorSearch(expanded, k * 4, metadataFilter), bm25(expanded),
               k, vectorWeight, bm25Weight, metadataFilter, docKeyToDoc, docKeyFunc)
    }

    /** The uncached part of `_getRelevantDocuments`: the vector search, then
        the BM25 search, each filtered, fused, sorted and cut to `k`. */
    method Search(expanded: string) returns (r: Result<seq<Document>, JsError>)
      modifies this`indexCalls
      ensures r == SearchResult(expanded)
      ensures indexCalls == old(indexCalls) + (if vectorSearch(expanded, k * 4, metadataFilter).Failure? then 1 else 2)
    {
      indexCalls := indexCalls + 1;
      var vectorResult := vectorSearch(expanded, k * 4, metadataFilter);
      if vectorResult.Failure? {
        return Failure(vectorResult.error);
      }
      var filteredVectorDocs := vectorResult.value;
      if |metadataFilter| > 0 {
        filteredVectorDocs := FilterDocs(filteredVectorDocs, metadataFilter);
      }

      indexCalls := indexCalls + 1;
      var bm25Result := bm25(expanded);
      if bm25Result.Failure? {
        return Failure(bm25Result.error);
      }
      var bm25Docs := bm25Result.value;
      if |metadataFilter| > 0 {
        bm25Docs := FilterDocs(bm25Docs, metadataFilter);
      }

      var vectorDocMap := BuildVectorDocMap(filteredVectorDocs);
      var docScores := ScoreList([], filteredVectorDocs, vectorWeight, vectorDocMap, docKeyFunc);
      docScores := ScoreList(docScores, bm25Docs, bm25Weight, map[], docKeyFunc);

      var sortedDocs := TopDocs(SortByScore(docScores), k);
      r := Success(sortedDocs);
    }

    /** The `for…of` loop that fills `vectorDocMap`. */
    method BuildVectorDocMap(docs: seq<Document>) returns (m: map<Fingerprint, Document>)
      ensures m == VectorDocMap(docs, docKeyToDoc, docKeyFunc)
    {
      m := map[];
      for i := 0 to |docs|
        invariant m == VectorDocMap(docs[..i], docKeyToDoc, docKeyFunc)
      {
        var key := docKeyFunc(docs[i]);
        assert docs[..i + 1][..i] == docs[..i];
        m := m[key := if key in docKeyToDoc then docKeyToDoc[key] else docs[i]];
      }
      assert docs[..|docs|] == docs;
    }
  }

  /** One `forEach((doc, rank) => …)` loop adding weighted reciprocal ranks. */
  method ScoreList(s: seq<Scored>, docs: seq<Document>, w: real, chosen: map<Fingerprint, Document>, keyOf: Document -> Fingerprint) returns (r: seq<Scored>)
    ensures r == Accumulate(s, docs, w, chosen, keyOf)
  {
    r := s;
    for rank := 0 to |docs|
      invariant r == Accumulate(s, docs[..rank], w, chosen, keyOf)
    {
      var key := keyOf(docs[rank]);
      var doc := if key in chosen then chosen[key] else docs[rank];
      assert docs[..rank + 1][..rank] == docs[..rank];
      r := AddScore(r, key, doc, w / (RankOffset + rank + 1) as real);
    }
    assert docs[..|docs|] == docs;
  }
}
