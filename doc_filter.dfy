/**
  * The two per-document helpers of the hybrid retriever: the conjunctive
  * metadata filter and the fingerprint `docKey` that identifies a document
  * across the two ranked lists.
  */
module DocFilter {
  import opened Wrappers
  import opened Text
  import opened Js

  /** `applyMetadataFilter`, over the filter's entries in order. A filter key
      that the metadata only inherits from `Object.prototype` passes the `in`
      test but then reads a function, which is never `===` to a filter value,
      so only own keys can match. */
  function ApplyMetadataFilter(doc: Document, filter: Dict<Value>): (ok: bool)
    ensures filter == [] ==> ok
    ensures ok <==> forall i :: 0 <= i < |filter| ==> Get(doc.metadata, filter[i].0) == Some(filter[i].1)
    decreases |filter|
  {
    if filter == [] then true
    else
      var (key, value) := filter[0];
      var rest := ApplyMetadataFilter(doc, filter[1..]);
      assert forall i :: 1 <= i < |filter| ==> filter[i] == filter[1..][i - 1];
      Get(doc.metadata, key) == Some(value) && rest
  }

  /** The default filter of the pipeline, `{access_level: "public"}`. */
  const PublicOnly: Dict<Value> := [("access_level", Str("public"))]

  /** Under the default filter a document passes exactly when its own
      `access_level` is the string "public". */
  lemma PublicOnlyAccepts(doc: Document)
    ensures ApplyMetadataFilter(doc, PublicOnly) <==> Get(doc.metadata, "access_level") == Some(Str("public"))
  {
    assert PublicOnly[0] == ("access_level", Str("public"));
  }

  /** A value as `JSON.stringify` writes it inside an array: `undefined`
      becomes `null`, object identity is dropped, and object properties
      holding `undefined` are omitted. */
  function JsonOf(v: Value): Json
    decreases v
  {
    match v
    case Undefined => JNull
    case Null => JNull
    case Bool(b) => JBool(b)
    case Num(n) => JNum(n)
    case Str(s) => JStr(s)
    case Arr(_, items) => JArr(seq(|items|, i requires 0 <= i < |items| => JsonOf(items[i])))
    case Obj(_, fields) =>
      JObj(DefinedFields(fields, seq(|fields|, i requires 0 <= i < |fields| => JsonOf(fields[i].1))))
  }

  /** The properties whose value is not `undefined`, each with its JSON form. */
  function DefinedFields(fields: Dict<Value>, js: seq<Json>): (r: Dict<Json>)
    requires |js| == |fields|
    ensures |r| <= |fields|
  {
    if fields == [] then []
    else
      var rest := DefinedFields(fields[1..], js[1..]);
      if fields[0].1 == Undefined then rest else [(fields[0].0, js[0])] + rest
  }

  /** Whether `s` is in ascending order of `<`; equal neighbours are allowed. */
  predicate Ascending(s: seq<string>) {
    forall i, j :: 0 <= i < j < |s| ==> !StrLess(s[j], s[i])
  }

  /** Insert `x` before the first element that is not smaller than it. */
  function InsertKey(x: string, s: seq<string>): (r: seq<string>)
    ensures multiset(r) == multiset(s) + multiset{x}
  {
    if s == [] || !StrLess(s[0], x) then [x] + s
    else
      assert s == [s[0]] + s[1..];
      [s[0]] + InsertKey(x, s[1..])
  }

  lemma {:induction false} InsertKeyAscending(x: string, s: seq<string>)
    requires Ascending(s)
    ensures Ascending(InsertKey(x, s))
  {
    if s == [] {
    } else if !StrLess(s[0], x) {
      NoneBelow(x, s);
      AscendingCons(x, s);
    } else {
      var t := InsertKey(x, s[1..]);
      assert Ascending(s[1..]);
      InsertKeyAscending(x, s[1..]);
      forall y | y in t ensures !StrLess(y, s[0]) {
        assert y in multiset(t);
        if y == x {
          StrLessIrreflexive(x);
          if StrLess(x, s[0]) {
            StrLessTransitive(x, s[0], x);
          }
        } else {
          assert y in s[1..];
        }
      }
      AscendingCons(s[0], t);
    }
  }

  /** No element of an ascending sequence is below `x` when its first is not. */
  lemma NoneBelow(x: string, s: seq<string>)
    requires Ascending(s) && s != [] && !StrLess(s[0], x)
    ensures forall y :: y in s ==> !StrLess(y, x)
  {
    forall j | 0 <= j < |s| ensures !StrLess(s[j], x) {
      if StrLess(s[j], x) && j > 0 && s[j] != s[0] {
        StrLessTotal(s[0], s[j]);
        StrLessTransitive(s[0], s[j], x);
      }
    }
  }

  /** An element no later element is below, put before an ascending sequence. */
  lemma AscendingCons(h: string, t: seq<string>)
    requires Ascending(t) && forall y :: y in t ==> !StrLess(y, h)
    ensures Ascending([h] + t)
  {
    var r := [h] + t;
    assert forall j :: 1 <= j < |r| ==> r[j] == t[j - 1] && r[j] in t;
  }

  /** `keys.sort()`: the keys in ascending string order. */
  function SortKeys(ks: seq<string>): (r: seq<string>)
    ensures multiset(r) == multiset(ks)
  {
    if ks == [] then []
    else
      assert ks == [ks[0]] + ks[1..];
      InsertKey(ks[0], SortKeys(ks[1..]))
  }

  lemma {:induction false} SortKeysAscending(ks: seq<string>)
    ensures Ascending(SortKeys(ks))
  {
    if ks != [] {
      SortKeysAscending(ks[1..]);
      InsertKeyAscending(ks[0], SortKeys(ks[1..]));
    }
  }

  /** Two ascending sequences with the same elements are the same sequence. */
  lemma {:induction false} AscendingUnique(a: seq<string>, b: seq<string>)
    requires Ascending(a) && Ascending(b) && multiset(a) == multiset(b)
    ensures a == b
  {
    if a != [] {
      assert |a| == |multiset(a)| == |b|;
      AscendingHeads(a, b);
      SameTails(a, b);
      AscendingUnique(a[1..], b[1..]);
      assert a == [a[0]] + a[1..] && b == [b[0]] + b[1..];
    }
  }

  /** Ascending sequences with the same elements start alike. */
  lemma AscendingHeads(a: seq<string>, b: seq<string>)
    requires Ascending(a) && Ascending(b) && multiset(a) == multiset(b) && a != [] && b != []
    ensures a[0] == b[0]
  {
    assert a[0] in multiset(b) && b[0] in multiset(a);
    if a[0] != b[0] {
      var i :| 0 <= i < |a| && a[i] == b[0];
      var j :| 0 <= j < |b| && b[j] == a[0];
      StrLessTotal(a[0], b[0]);
      assert false;
    }
  }

  /** Removing the same first element leaves the same elements. */
  lemma SameTails(a: seq<string>, b: seq<string>)
    requires a != [] && b != [] && a[0] == b[0] && multiset(a) == multiset(b)
    ensures multiset(a[1..]) == multiset(b[1..])
  {
    assert a == [a[0]] + a[1..] && b == [b[0]] + b[1..];
    assert multiset(a) == multiset{a[0]} + multiset(a[1..]);
    assert multiset(b) == multiset{a[0]} + multiset(b[1..]);
    forall y ensures multiset(a[1..])[y] == multiset(b[1..])[y] {
      assert multiset(a)[y] == multiset(b)[y];
    }
  }

  /** The first 100 characters of the content: `substring(0, 100)`. */
  function Preview(content: string): (p: string)
    ensures |p| <= 100 && StartsWith(content, p)
    ensures |content| >= 100 ==> |p| == 100
    ensures |content| < 100 ==> p == content
  {
    if |content| <= 100 then content else content[..100]
  }

  /** The metadata as `[key, value]` pairs in ascending key order. */
  function SortedPairs(metadata: Dict<Value>): (ps: seq<(string, Json)>)
  {
    var ks := SortKeys(Keys(metadata));
    seq(|ks|, i requires 0 <= i < |ks| => (ks[i], JsonOf(Get(metadata, ks[i]).GetOr(Undefined))))
  }

  /** What `docKey` renders as one string: the content preview, then the
      JSON text of the sorted pairs. `JSON.stringify` is kept symbolic: two
      fingerprints are equal exactly when their previews and their pair
      lists are. */
  datatype Fingerprint = Fingerprint(preview: string, pairs: seq<(string, Json)>)

  /** `docKey` */
  function DocKey(doc: Document): Fingerprint {
    Fingerprint(Preview(doc.pageContent), SortedPairs(doc.metadata))
  }

  /** Equal fingerprints mean the same first 100 characters. */
  lemma DocKeyPreview(d1: Document, d2: Document)
    requires DocKey(d1) == DocKey(d2)
    ensures |d1.pageContent| < 100 || |d2.pageContent| < 100 ==> d1.pageContent == d2.pageContent
    ensures |d1.pageContent| >= 100 <==> |d2.pageContent| >= 100
    ensures |d1.pageContent| >= 100 ==> d1.pageContent[..100] == d2.pageContent[..100]
  {
  }

  /** A key occurs once in the keys of an object with distinct keys, and not
      at all when absent. */
  lemma {:induction false} UniqueKeysCount<T>(d: Dict<T>, k: string)
    requires UniqueKeys(d)
    ensures multiset(Keys(d))[k] == if HasKey(d, k) then 1 else 0
  {
    if d != [] {
      assert UniqueKeys(d[1..]) by {
        forall i, j | 0 <= i < j < |d| - 1 ensures d[1..][i].0 != d[1..][j].0 {
          assert d[1..][i] == d[i + 1] && d[1..][j] == d[j + 1];
        }
      }
      UniqueKeysCount(d[1..], k);
      assert Keys(d) == [d[0].0] + Keys(d[1..]);
    }
  }

  /** Objects with the same own properties have the same keys, whatever the
      order in which the properties were added. */
  lemma SameKeys<T>(m1: Dict<T>, m2: Dict<T>)
    requires UniqueKeys(m1) && UniqueKeys(m2)
    requires forall k :: Get(m1, k) == Get(m2, k)
    ensures multiset(Keys(m1)) == multiset(Keys(m2))
  {
    forall k ensures multiset(Keys(m1))[k] == multiset(Keys(m2))[k] {
      UniqueKeysCount(m1, k);
      UniqueKeysCount(m2, k);
      assert Get(m1, k) == Get(m2, k);
    }
  }

  /** The fingerprint does not depend on the order in which metadata
      properties were inserted, nor on any character after the 100th. */
  lemma DocKeyOrderIndependent(d1: Document, d2: Document)
    requires UniqueKeys(d1.metadata) && UniqueKeys(d2.metadata)
    requires forall k :: Get(d1.metadata, k) == Get(d2.metadata, k)
    requires Preview(d1.pageContent) == Preview(d2.pageContent)
    ensures DocKey(d1) == DocKey(d2)
  {
    SortedKeysAgree(d1.metadata, d2.metadata);
    SortedPairsAgree(d1.metadata, d2.metadata);
  }

  lemma SortedKeysAgree(m1: Dict<Value>, m2: Dict<Value>)
    requires UniqueKeys(m1) && UniqueKeys(m2)
    requires forall k :: Get(m1, k) == Get(m2, k)
    ensures SortKeys(Keys(m1)) == SortKeys(Keys(m2))
  {
    SameKeys(m1, m2);
    SortKeysAscending(Keys(m1));
    SortKeysAscending(Keys(m2));
    AscendingUnique(SortKeys(Keys(m1)), SortKeys(Keys(m2)));
  }

  lemma SortedPairsAgree(m1: Dict<Value>, m2: Dict<Value>)
    requires SortKeys(Keys(m1)) == SortKeys(Keys(m2))
    requires forall k :: Get(m1, k) == Get(m2, k)
    ensures SortedPairs(m1) == SortedPairs(m2)
  {
  }
}
