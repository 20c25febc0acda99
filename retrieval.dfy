/**
  * Query handling of the hybrid retriever: normalisation, tokenisation,
  * synonym expansion, the metadata filter and the document fingerprint.
  */
module Retrieval {
  import opened Wrappers
  import opened Text
  import opened Js

  /** A query as `normalizeQuery` leaves it: no whitespace at either end, every
      whitespace character a plain space, and never two in a row. */
  predicate Normalized(s: string) {
    && (s != [] ==> !IsSpace(s[0]) && !IsSpace(s[|s| - 1]))
    && (forall i :: 0 <= i < |s| && IsSpace(s[i]) ==> s[i] == ' ')
    && (forall i :: 0 <= i < |s| - 1 ==> !RunAt(s, i, Whitespace))
  }

  /** `normalizeQuery`: the first `replace` of the source maps an apostrophe to
      itself, so the query is trimmed and its whitespace runs become one space. */
  function NormalizeQuery(q: string): string {
    CollapseRuns(Trim(q), Whitespace, ' ')
  }

  /** The result of `normalizeQuery` is normalized and no longer than the query. */
  lemma NormalizeQueryNormalized(q: string)
    ensures Normalized(NormalizeQuery(q)) && |NormalizeQuery(q)| <= |q|
  {
    var t := Trim(q);
    CollapseShape(t, Whitespace, ' ');
    if t != [] {
      CollapseEnds(t, Whitespace, ' ');
    }
  }

  /** A normalized query is left as it is. */
  lemma NormalizeFixed(s: string)
    requires Normalized(s)
    ensures NormalizeQuery(s) == s
  {
    TrimUnchanged(s);
    CollapseFixed(s, Whitespace, ' ');
  }

  lemma NormalizeIdempotent(q: string)
    ensures NormalizeQuery(NormalizeQuery(q)) == NormalizeQuery(q)
  {
    NormalizeQueryNormalized(q);
    NormalizeFixed(NormalizeQuery(q));
  }

  /** A token as `tokenizeQuery` produces it: non-empty, over `[a-z0-9']`. */
  predicate IsToken(w: string) {
    w != [] && forall j :: 0 <= j < |w| ==> IsTokenChar(w[j])
  }

  /** The lowercased query with every run of non-token characters replaced by
      one space, trimmed. */
  function CleanQuery(q: string): string {
    Trim(CollapseRuns(ToLower(q), NonTokenChar, ' '))
  }

  /** `tokenizeQuery` */
  function TokenizeQuery(q: string): (ts: seq<string>)
    ensures forall i :: 0 <= i < |ts| ==> IsToken(ts[i])
  {
    var cleaned := CleanQuery(q);
    if cleaned == [] then []
    else
      var ws := Words(cleaned);
      assert forall i :: 0 <= i < |ws| ==> IsToken(ws[i]) by {
        forall i | 0 <= i < |ws| ensures IsToken(ws[i]) {
          WordIsToken(q, ws[i]);
        }
      }
      ws
  }

  lemma WordIsToken(q: string, w: string)
    requires IsWord(w) && CharsFrom(w, CleanQuery(q))
    ensures IsToken(w)
  {
    var c := CollapseRuns(ToLower(q), NonTokenChar, ' ');
    CollapseShape(ToLower(q), NonTokenChar, ' ');
    forall j | 0 <= j < |w| ensures IsTokenChar(w[j]) {
      assert w[j] in CleanQuery(q);
      assert w[j] in c;
      var k :| 0 <= k < |c| && c[k] == w[j];
      assert !IsSpace(w[j]);
    }
  }

  /** The query has no tokens exactly when no character of it lowercases to
      one of `[a-z0-9']`. */
  lemma TokenizeEmpty(q: string)
    ensures TokenizeQuery(q) == [] <==> forall i :: 0 <= i < |q| ==> !IsTokenChar(LowerChar(q[i]))
  {
    var lower := ToLower(q);
    var c := CollapseRuns(lower, NonTokenChar, ' ');
    if i :| 0 <= i < |q| && IsTokenChar(LowerChar(q[i])) {
      var x := lower[i];
      CollapseKeeps(lower, NonTokenChar, ' ', x);
      TrimKeeps(c, x);
      WordsNonEmpty(CleanQuery(q), x);
    } else {
      CollapseShape(lower, NonTokenChar, ' ');
      forall x | x in c ensures x == ' ' {
        if x != ' ' {
          var k :| 0 <= k < |c| && c[k] == x;
          assert IsTokenChar(x);
          CollapseOnly(lower, NonTokenChar, ' ', x);
        }
      }
      assert forall k :: 0 <= k < |c| ==> InClass(c[k], Whitespace) by {
        assert forall k :: 0 <= k < |c| ==> c[k] in c;
      }
      DropWhileAll(c, Whitespace);
      var t := Trim(c);
      assert CleanQuery(q) == t;
    }
  }

  /** `new Set<string>().add(x)` on an insertion-ordered set. */
  function SetAdd(ps: seq<string>, x: string): seq<string> {
    if x in ps then ps else ps + [x]
  }

  predicate Distinct(ps: seq<string>) {
    forall i, j :: 0 <= i < j < |ps| ==> ps[i] != ps[j]
  }

  /** `for (const a of xs) phrases.add(a)` */
  function AddAll(ps: seq<string>, xs: seq<string>): (r: seq<string>)
    ensures ps <= r
    ensures Distinct(ps) ==> Distinct(r)
    ensures forall x :: x in r <==> x in ps || x in xs
    decreases |xs|
  {
    if xs == [] then ps
    else
      var p := AddAll(ps, xs[..|xs| - 1]);
      assert forall x :: x in xs <==> x in xs[..|xs| - 1] || x == xs[|xs| - 1] by {
        assert xs == xs[..|xs| - 1] + [xs[|xs| - 1]];
      }
      SetAdd(p, xs[|xs| - 1])
  }

  /** The synonym configuration: at most `maxExtraPhrases` extra phrases, and
      synonym lists keyed by token and by phrase. */
  datatype QueryExpansions = QueryExpansions(
    maxExtraPhrases: int,
    tokenSynonyms: Dict<seq<string>>,
    phraseSynonyms: Dict<seq<string>>)

  const DefaultQueryExpansions := QueryExpansions(8, [], [])

  /** Synonym lists as the loader leaves them: keys lowercase and each once,
      lists non-empty and made of normalized non-empty phrases. */
  predicate WellFormedSynonyms(d: Dict<seq<string>>) {
    && UniqueKeys(d)
    && (forall i :: 0 <= i < |d| ==> ToLower(d[i].0) == d[i].0)
    && (forall i :: 0 <= i < |d| ==> d[i].1 != [] && Phrases(d[i].1))
  }

  predicate Phrases(ps: seq<string>) {
    forall i :: 0 <= i < |ps| ==> ps[i] != [] && Normalized(ps[i])
  }

  /** `asStringArray` over the elements of an array: the string elements,
      normalized, with the empty results dropped. */
  function NormalizedStrings(items: seq<Json>): (r: seq<string>)
    ensures |r| <= |items|
  {
    if items == [] then []
    else
      var rest := NormalizedStrings(items[1..]);
      if items[0].JStr? && NormalizeQuery(items[0].s) != [] then [NormalizeQuery(items[0].s)] + rest
      else rest
  }

  lemma {:induction false} NormalizedStringsPhrases(items: seq<Json>)
    ensures Phrases(NormalizedStrings(items))
  {
    if items != [] {
      NormalizedStringsPhrases(items[1..]);
      var rest := NormalizedStrings(items[1..]);
      if items[0].JStr? && NormalizeQuery(items[0].s) != [] {
        var p := NormalizeQuery(items[0].s);
        NormalizeQueryNormalized(items[0].s);
        assert NormalizedStrings(items) == [p] + rest;
        forall i | 0 <= i < |rest| + 1 ensures ([p] + rest)[i] != [] && Normalized(([p] + rest)[i]) {
          if i > 0 {
            assert ([p] + rest)[i] == rest[i - 1];
          }
        }
      }
    }
  }

  /** A list of phrases that are already normalized survives `asStringArray`. */
  lemma NormalizedStringsKeeps(ps: seq<string>)
    requires Phrases(ps)
    ensures NormalizedStrings(JsonStrings(ps)) == ps
  {
    PhrasesFixed(ps);
    NormalizedStringsFixed(ps);
  }

  /** Each phrase is non-empty and a fixed point of `NormalizeQuery`. */
  predicate FixedPhrases(ps: seq<string>) {
    ps == [] || (ps[0] != [] && NormalizeQuery(ps[0]) == ps[0] && FixedPhrases(ps[1..]))
  }

  lemma {:induction false} PhrasesFixed(ps: seq<string>)
    requires Phrases(ps)
    ensures FixedPhrases(ps)
  {
    if ps != [] {
      NormalizeFixed(ps[0]);
      assert Phrases(ps[1..]) by {
        forall i | 0 <= i < |ps| - 1 ensures ps[1..][i] != [] && Normalized(ps[1..][i]) {
          assert ps[1..][i] == ps[i + 1];
        }
      }
      PhrasesFixed(ps[1..]);
    }
  }

  lemma {:induction false} NormalizedStringsFixed(ps: seq<string>)
    requires FixedPhrases(ps)
    ensures NormalizedStrings(JsonStrings(ps)) == ps
  {
    if ps != [] {
      var rest := JsonStrings(ps[1..]);
      NormalizedStringsFixed(ps[1..]);
      assert JsonStrings(ps) == [JStr(ps[0])] + rest;
      NormalizedStringsCons(ps[0], rest);
      assert [ps[0]] + ps[1..] == ps;
    }
  }

  lemma NormalizedStringsCons(p: string, rest: seq<Json>)
    requires p != [] && NormalizeQuery(p) == p
    ensures NormalizedStrings([JStr(p)] + rest) == [p] + NormalizedStrings(rest)
  {
    assert ([JStr(p)] + rest)[1..] == rest;
  }

  /** The JSON array of strings `ps`. */
  function JsonStrings(ps: seq<string>): (js: seq<Json>)
    ensures |js| == |ps| && forall i :: 0 <= i < |ps| ==> js[i] == JStr(ps[i])
  {
    if ps == [] then [] else [JStr(ps[0])] + JsonStrings(ps[1..])
  }

  /** `asStringArray`: anything but an array gives no phrases. */
  function AsStringArray(v: Option<Json>): (r: seq<string>)
    ensures Phrases(r)
    ensures !(v.Some? && v.value.JArr?) ==> r == []
  {
    if v.Some? && v.value.JArr? then NormalizedStringsPhrases(v.value.items); NormalizedStrings(v.value.items) else []
  }

  /** `Object.entries` of a parsed value that passes `value && typeof value
      === "object"`: an object's own fields, or an array's indices. */
  function Entries(v: Json): Dict<Json> {
    match v
    case JObj(fields) => fields
    case JArr(items) => seq(|items|, i requires 0 <= i < |items| => (NatToString(i), items[i]))
    case _ => []
  }

  /** The loop of `asStringArrayRecord` over `entries`, writing into `out`. */
  function CollectSynonyms(out: Dict<seq<string>>, entries: Dict<Json>): (r: Dict<seq<string>>)
    requires WellFormedSynonyms(out)
    ensures WellFormedSynonyms(r)
    ensures forall k :: HasKey(out, k) ==> HasKey(r, k)
    ensures forall i :: 0 <= i < |entries| && AsStringArray(Some(entries[i].1)) != [] ==> HasKey(r, ToLower(entries[i].0))
    decreases |entries|
  {
    if entries == [] then out
    else
      var r := CollectSynonyms(AddSynonymEntry(out, entries[0]), entries[1..]);
      assert forall i :: 1 <= i < |entries| ==> entries[i] == entries[1..][i - 1];
      r
  }

  /** One iteration: `out[k.toLowerCase()] = arr` when `arr` is not empty. */
  function AddSynonymEntry(out: Dict<seq<string>>, e: (string, Json)): (r: Dict<seq<string>>)
    requires WellFormedSynonyms(out)
    ensures WellFormedSynonyms(r)
    ensures forall k :: HasKey(out, k) ==> HasKey(r, k)
    ensures AsStringArray(Some(e.1)) != [] ==> HasKey(r, ToLower(e.0))
  {
    var arr := AsStringArray(Some(e.1));
    if arr == [] then out
    else
      var k := ToLower(e.0);
      LowerIdempotent(e.0);
      SetWellFormed(out, k, arr);
      Set(out, k, arr)
  }

  lemma SetWellFormed(out: Dict<seq<string>>, k: string, arr: seq<string>)
    requires WellFormedSynonyms(out)
    requires ToLower(k) == k && arr != [] && Phrases(arr)
    ensures WellFormedSynonyms(Set(out, k, arr))
    ensures forall k' :: HasKey(out, k') ==> HasKey(Set(out, k, arr), k')
    ensures HasKey(Set(out, k, arr), k)
  {
    var r := Set(out, k, arr);
    SetUnique(out, k, arr);
    SetEntries(out, k, arr);
    SetKeys(out, k, arr);
    forall i | 0 <= i < |r| ensures ToLower(r[i].0) == r[i].0 && r[i].1 != [] && Phrases(r[i].1) {
      if r[i] != (k, arr) {
        var j :| 0 <= j < |out| && out[j] == r[i];
      }
    }
  }

  /** `asStringArrayRecord` */
  function AsStringArrayRecord(v: Option<Json>): (r: Dict<seq<string>>)
    ensures WellFormedSynonyms(r)
  {
    if v.Some? && (v.value.JObj? || v.value.JArr?) then CollectSynonyms([], Entries(v.value)) else []
  }

  /** Entry `e` gives the key `k` a synonym list: its lower-cased key is `k`
      and its value yields at least one phrase. */
  predicate EntryFor(e: (string, Json), k: string) {
    ToLower(e.0) == k && AsStringArray(Some(e.1)) != []
  }

  /** The phrases of the last entry that gives `k` a synonym list, if any. */
  function LastSynonyms(entries: Dict<Json>, k: string): Option<seq<string>>
    decreases |entries|
  {
    if entries == [] then None
    else
      var rest := LastSynonyms(entries[1..], k);
      if rest.Some? then rest
      else if EntryFor(entries[0], k) then Some(AsStringArray(Some(entries[0].1)))
      else None
  }

  /** `LastSynonyms` finds a list exactly when some entry gives one, and then
      it is the list of an entry after which no entry gives one. */
  lemma {:induction false} LastSynonymsResult(entries: Dict<Json>, k: string)
    ensures LastSynonyms(entries, k).Some? <==> exists i :: 0 <= i < |entries| && EntryFor(entries[i], k)
    ensures LastSynonyms(entries, k).Some? ==>
      exists i :: 0 <= i < |entries| && EntryFor(entries[i], k)
        && LastSynonyms(entries, k).value == AsStringArray(Some(entries[i].1))
        && forall j :: i < j < |entries| ==> !EntryFor(entries[j], k)
    decreases |entries|
  {
    if entries != [] {
      var tail := entries[1..];
      LastSynonymsResult(tail, k);
      assert forall i :: 1 <= i < |entries| ==> entries[i] == tail[i - 1];
      if LastSynonyms(tail, k).Some? {
        var i :| 0 <= i < |tail| && EntryFor(tail[i], k)
          && LastSynonyms(tail, k).value == AsStringArray(Some(tail[i].1))
          && forall j :: i < j < |tail| ==> !EntryFor(tail[j], k);
        assert EntryFor(entries[i + 1], k);
      } else if EntryFor(entries[0], k) {
        assert forall j :: 0 < j < |entries| ==> !EntryFor(entries[j], k);
      } else {
        assert forall i :: 0 <= i < |entries| ==> !EntryFor(entries[i], k) by {
          forall i | 0 <= i < |entries| ensures !EntryFor(entries[i], k) {
            if i > 0 {
              assert entries[i] == tail[i - 1];
            }
          }
        }
      }
    }
  }

  /** After the loop each key holds the list of the last entry that gives
      it one, and keeps its earlier list when no entry does. */
  lemma {:induction false} CollectSynonymsGet(out: Dict<seq<string>>, entries: Dict<Json>, k: string)
    requires WellFormedSynonyms(out)
    ensures Get(CollectSynonyms(out, entries), k) ==
      if LastSynonyms(entries, k).Some? then LastSynonyms(entries, k) else Get(out, k)
    decreases |entries|
  {
    if entries != [] {
      var e := entries[0];
      var next := AddSynonymEntry(out, e);
      CollectSynonymsGet(next, entries[1..], k);
      var arr := AsStringArray(Some(e.1));
      if arr != [] {
        if ToLower(e.0) == k {
          SetGet(out, k, arr);
        } else {
          SetOther(out, ToLower(e.0), arr, k);
        }
      }
    }
  }

  /** The record read from a parsed object (or array) maps each key to the
      phrases of the last entry whose lower-cased key it is and that yields
      at least one phrase, and has no other keys; any other value gives the
      empty record. */
  lemma AsStringArrayRecordGet(v: Option<Json>, k: string)
    ensures Get(AsStringArrayRecord(v), k) ==
      if v.Some? && (v.value.JObj? || v.value.JArr?) then LastSynonyms(Entries(v.value), k) else None
  {
    if v.Some? && (v.value.JObj? || v.value.JArr?) {
      CollectSynonymsGet([], Entries(v.value), k);
    }
  }

  /** `Math.max(0, Math.floor(x))` for a finite number, else the default 8. */
  function MaxExtraPhrases(v: Option<Json>): (n: int)
    ensures n >= 0
    ensures v.Some? && v.value.JNum? ==> n as real <= v.value.n < n as real + 1.0 || (n == 0 && v.value.n < 0.0)
    ensures !(v.Some? && v.value.JNum?) ==> n == DefaultQueryExpansions.maxExtraPhrases
  {
    if v.Some? && v.value.JNum? then (if v.value.n.Floor < 0 then 0 else v.value.n.Floor)
    else DefaultQueryExpansions.maxExtraPhrases
  }

  /** `loadQueryExpansionsConfig`. Reading and parsing the file is the
      parameter `readJson`, with `None` for a read or parse error. Reading a
      property of a parsed `null` throws, which also gives the defaults. */
  function LoadQueryExpansionsConfig(
    path: Option<string>, explicit: Option<QueryExpansions>, readJson: string -> Option<Json>): (cfg: QueryExpansions)
    ensures explicit.Some? ==> cfg == explicit.value
    ensures explicit.None? && (path.None? || path.value == "") ==> cfg == DefaultQueryExpansions
    ensures explicit.None? && path.Some? && readJson(path.value) in {None, Some(JNull)} ==> cfg == DefaultQueryExpansions
    ensures explicit.None? ==>
      cfg.maxExtraPhrases >= 0 && WellFormedSynonyms(cfg.tokenSynonyms) && WellFormedSynonyms(cfg.phraseSynonyms)
    ensures (explicit.None? && path.Some? && path.value != "" && readJson(path.value).Some?
             && readJson(path.value) != Some(JNull)) ==>
      var parsed := readJson(path.value).value;
      cfg == QueryExpansions(
        MaxExtraPhrases(Field(parsed, "maxExtraPhrases")),
        AsStringArrayRecord(Field(parsed, "tokenSynonyms")),
        AsStringArrayRecord(Field(parsed, "phraseSynonyms")))
  {
    if explicit.Some? then explicit.value
    else if path.None? || path.value == "" then DefaultQueryExpansions
    else match readJson(path.value)
      case None => DefaultQueryExpansions
      case Some(JNull) => DefaultQueryExpansions
      case Some(parsed) =>
        QueryExpansions(
          MaxExtraPhrases(Field(parsed, "maxExtraPhrases")),
          AsStringArrayRecord(Field(parsed, "tokenSynonyms")),
          AsStringArrayRecord(Field(parsed, "phraseSynonyms")))
  }

  /** `token.replace(/'/g, "")` */
  function RemoveApostrophes(s: string): (r: string)
    ensures |r| <= |s|
    ensures forall i :: 0 <= i < |r| ==> r[i] != '\''
  {
    if s == [] then []
    else if s[0] == '\'' then RemoveApostrophes(s[1..])
    else [s[0]] + RemoveApostrophes(s[1..])
  }

  /** Removing apostrophes works character by character, keeping the order:
      each character is dropped when it is an apostrophe and kept
      otherwise, so every other character keeps its number of
      occurrences. */
  lemma {:induction false} RemoveApostrophesAppend(a: string, b: string)
    ensures RemoveApostrophes(a + b) == RemoveApostrophes(a) + RemoveApostrophes(b)
    ensures |a| == 1 ==> RemoveApostrophes(a) == if a[0] == '\'' then [] else a
    ensures multiset(RemoveApostrophes(a)) == multiset(a)['\'' := 0]
    decreases |a|
  {
    if a != [] {
      assert a == [a[0]] + a[1..];
      assert (a + b)[0] == a[0] && (a + b)[1..] == a[1..] + b;
      RemoveApostrophesAppend(a[1..], b);
      if a[0] != '\'' {
        assert RemoveApostrophes(a + b) == [a[0]] + RemoveApostrophes(a[1..] + b);
        assert RemoveApostrophes(a) == [a[0]] + RemoveApostrophes(a[1..]);
      } else {
        assert RemoveApostrophes(a + b) == RemoveApostrophes(a[1..] + b);
        assert RemoveApostrophes(a) == RemoveApostrophes(a[1..]);
      }
    } else {
      assert a + b == b;
    }
  }

  lemma {:induction false} RemoveApostrophesNone(s: string)
    requires '\'' !in s
    ensures RemoveApostrophes(s) == s
  {
    if s != [] {
      RemoveApostrophesNone(s[1..]);
    }
  }

  /** Whether the trailing-"s" variant applies. */
  predicate Plural(token: string) {
    EndsWith(token, "s") && |token| > 3
  }

  function NonEmpty(ps: seq<string>): (r: seq<string>)
    ensures forall x :: x in r <==> x in ps && x != []
    ensures Distinct(ps) ==> Distinct(r)
  {
    if ps == [] then []
    else
      var rest := NonEmpty(ps[1..]);
      assert Distinct(ps) ==> ps[0] !in ps[1..];
      if ps[0] != [] then [ps[0]] + rest else rest
  }

  /** `tokenVariants`: the token, its apostrophe-free form and, for a plural
      of more than three characters, its singular, each once and never "". */
  function TokenVariants(token: string): (vs: seq<string>)
    ensures Distinct(vs)
    ensures forall v :: v in vs ==>
      v != [] && (v == token || v == RemoveApostrophes(token) || (Plural(token) && v == token[..|token| - 1]))
    ensures token != [] ==> token in vs
    ensures RemoveApostrophes(token) != [] ==> RemoveApostrophes(token) in vs
    ensures Plural(token) ==> token[..|token| - 1] in vs
  {
    var set2 := SetAdd([token], RemoveApostrophes(token));
    var set3 := if Plural(token) then SetAdd(set2, token[..|token| - 1]) else set2;
    NonEmpty(set3)
  }

  /** `queryExpansions.tokenSynonyms[variant]`, read as an own property
      (an absent key adds nothing). */
  function Synonyms(syn: Dict<seq<string>>, v: string): seq<string> {
    Get(syn, v).GetOr([])
  }

  /** The inner loop of the token phase over the variants of one token. */
  function AddVariants(ps: seq<string>, vs: seq<string>, syn: Dict<seq<string>>): (r: seq<string>)
    ensures ps <= r
    ensures Distinct(ps) ==> Distinct(r)
    ensures forall x :: x in r ==> x in ps || exists i :: 0 <= i < |vs| && x in Synonyms(syn, vs[i])
    decreases |vs|
  {
    if vs == [] then ps
    else AddAll(AddVariants(ps, vs[..|vs| - 1], syn), Synonyms(syn, vs[|vs| - 1]))
  }

  /** The token phase of `expandQuery`. */
  function AddTokenRules(ps: seq<string>, tokens: seq<string>, syn: Dict<seq<string>>): (r: seq<string>)
    ensures ps <= r
    ensures Distinct(ps) ==> Distinct(r)
    decreases |tokens|
  {
    if tokens == [] then ps
    else AddVariants(AddTokenRules(ps, tokens[..|tokens| - 1], syn), TokenVariants(tokens[|tokens| - 1]), syn)
  }

  /** `" " + phrase + " "` normalized and lowercased: the needle a phrase rule
      looks for. */
  function Needle(phrase: string): string {
    " " + ToLower(NormalizeQuery(phrase)) + " "
  }

  /** A phrase rule fires when its needle is not blank and occurs in the
      space-padded lowercased query. */
  predicate PhraseMatches(phrase: string, lowerQuery: string) {
    Trim(Needle(phrase)) != [] && Contains(lowerQuery, Needle(phrase))
  }

  /** The phrase phase of `expandQuery`, over the rules in insertion order. */
  function AddPhraseRules(ps: seq<string>, rules: Dict<seq<string>>, lowerQuery: string): (r: seq<string>)
    ensures ps <= r
    ensures Distinct(ps) ==> Distinct(r)
    ensures forall x :: x in r ==>
      (x in ps || exists i :: 0 <= i < |rules| && PhraseMatches(rules[i].0, lowerQuery) && x in rules[i].1)
    decreases |rules|
  {
    if rules == [] then ps
    else
      var p := AddPhraseRules(ps, rules[..|rules| - 1], lowerQuery);
      if PhraseMatches(rules[|rules| - 1].0, lowerQuery) then AddAll(p, rules[|rules| - 1].1) else p
  }

  /** A phrase that normalizes to nothing never fires. */
  lemma BlankPhraseIgnored(phrase: string, lowerQuery: string)
    requires NormalizeQuery(phrase) == []
    ensures !PhraseMatches(phrase, lowerQuery)
  {
    assert Needle(phrase) == "  ";
    assert IsSpace(' ');
    assert TrimStart("  ") == [];
  }

  /** The space-padded lowercased form the phrase rules search. */
  function LowerQuery(normalized: string): string {
    " " + ToLower(normalized) + " "
  }

  /** Every extra phrase, token rules first, each once. */
  function ExtraPhrases(query: string, cfg: QueryExpansions): (ps: seq<string>)
    ensures Distinct(ps)
    ensures AddTokenRules([], TokenizeQuery(NormalizeQuery(query)), cfg.tokenSynonyms) <= ps
  {
    var normalized := NormalizeQuery(query);
    var tokenPhase := AddTokenRules([], TokenizeQuery(normalized), cfg.tokenSynonyms);
    AddPhraseRules(tokenPhase, cfg.phraseSynonyms, LowerQuery(normalized))
  }

  /** The end index of `slice(0, m)` on a list of `len` elements. */
  function SliceEnd(len: nat, m: int): (n: nat)
    ensures n <= len
    ensures m >= 0 ==> n <= m
  {
    if m >= 0 then (if m < len then m else len)
    else if len + m > 0 then len + m else 0
  }

  /** The extra phrases kept: at most `maxExtraPhrases` of them (when that is
      not negative), distinct, the first ones found. */
  function LimitedPhrases(query: string, cfg: QueryExpansions): (ps: seq<string>)
    ensures Distinct(ps)
    ensures ps <= ExtraPhrases(query, cfg)
    ensures cfg.maxExtraPhrases >= 0 ==> |ps| <= cfg.maxExtraPhrases
    ensures cfg.maxExtraPhrases >= |ExtraPhrases(query, cfg)| ==> ps == ExtraPhrases(query, cfg)
  {
    var all := ExtraPhrases(query, cfg);
    var n := SliceEnd(|all|, cfg.maxExtraPhrases);
    PrefixDistinct(all, n);
    all[..n]
  }

  lemma PrefixDistinct(ps: seq<string>, n: nat)
    requires Distinct(ps) && n <= |ps|
    ensures Distinct(ps[..n])
  {
  }

  /** The expanded query `expandQuery` returns. */
  function Expansion(query: string, cfg: QueryExpansions): string {
    var normalized := NormalizeQuery(query);
    var limited := LimitedPhrases(query, cfg);
    if limited == [] then normalized
    else NormalizeQuery(normalized + " " + Join(limited, " "))
  }

  /** The expanded query is itself normalized. */
  lemma ExpansionNormalized(query: string, cfg: QueryExpansions)
    ensures Normalized(Expansion(query, cfg))
  {
    var normalized := NormalizeQuery(query);
    var limited := LimitedPhrases(query, cfg);
    if limited == [] {
      NormalizeQueryNormalized(query);
    } else {
      NormalizeQueryNormalized(normalized + " " + Join(limited, " "));
    }
  }

  /** The expanded query starts with the normalized query. */
  lemma ExpansionExtendsQuery(query: string, cfg: QueryExpansions)
    ensures StartsWith(Expansion(query, cfg), NormalizeQuery(query))
  {
    NormalizeQueryNormalized(query);
    AppendPhrasesExtends(NormalizeQuery(query), LimitedPhrases(query, cfg));
  }

  lemma AppendPhrasesExtends(n: string, limited: seq<string>)
    requires Normalized(n)
    ensures StartsWith(if limited == [] then n else NormalizeQuery(n + " " + Join(limited, " ")), n)
  {
    if limited != [] && n != [] {
      NormalizeExtends(n, Join(limited, " "));
    }
  }

  /** Normalizing a normalized string followed by more text keeps the
      string as a prefix. */
  lemma NormalizeExtends(n: string, j: string)
    requires Normalized(n) && n != []
    ensures StartsWith(NormalizeQuery(n + " " + j), n)
  {
    var w := " " + j;
    var s := n + w;
    assert n + " " + j == s;
    assert s[0] == n[0];
    assert TrimStart(s) == s;
    TrimEndAppend(n, w);
    var u := TrimEnd(w);
    CollapseAppend(n, u, Whitespace, ' ');
    CollapseFixed(n, Whitespace, ' ');
    calc {
      NormalizeQuery(s);
      CollapseRuns(Trim(s), Whitespace, ' ');
      { assert Trim(s) == TrimEnd(s); }
      CollapseRuns(n + u, Whitespace, ' ');
      n + CollapseRuns(u, Whitespace, ' ');
    }
  }

  /* Which phrases the expansion collects */

  /** Some variant in `vs` has `x` among its token synonyms. */
  predicate VariantsAdd(syn: Dict<seq<string>>, vs: seq<string>, x: string)
    decreases |vs|
  {
    vs != [] && (VariantsAdd(syn, vs[..|vs| - 1], x) || x in Synonyms(syn, vs[|vs| - 1]))
  }

  /** A variant of `token` has `x` among its synonyms. */
  predicate TokenAdds(syn: Dict<seq<string>>, token: string, x: string) {
    VariantsAdd(syn, TokenVariants(token), x)
  }

  /** Some token has a variant with `x` among its synonyms. */
  predicate TokensAdd(syn: Dict<seq<string>>, tokens: seq<string>, x: string)
    decreases |tokens|
  {
    tokens != [] && (TokensAdd(syn, tokens[..|tokens| - 1], x) || TokenAdds(syn, tokens[|tokens| - 1], x))
  }

  /** Some phrase rule that fires on `lowerQuery` lists `x`. */
  predicate RulesAdd(rules: Dict<seq<string>>, lowerQuery: string, x: string)
    decreases |rules|
  {
    rules != [] &&
      (RulesAdd(rules[..|rules| - 1], lowerQuery, x)
       || (PhraseMatches(rules[|rules| - 1].0, lowerQuery) && x in rules[|rules| - 1].1))
  }

  /** The variant loop adds exactly the synonyms of the variants. */
  lemma {:induction false} AddVariantsExact(ps: seq<string>, vs: seq<string>, syn: Dict<seq<string>>)
    ensures forall x :: x in AddVariants(ps, vs, syn) <==> x in ps || VariantsAdd(syn, vs, x)
    decreases |vs|
  {
    if vs != [] {
      AddVariantsExact(ps, vs[..|vs| - 1], syn);
    }
  }

  /** The token phase adds exactly the synonyms of the tokens' variants. */
  lemma {:induction false} AddTokenRulesExact(ps: seq<string>, tokens: seq<string>, syn: Dict<seq<string>>)
    ensures forall x :: x in AddTokenRules(ps, tokens, syn) <==> x in ps || TokensAdd(syn, tokens, x)
    decreases |tokens|
  {
    if tokens != [] {
      var n := |tokens| - 1;
      AddTokenRulesExact(ps, tokens[..n], syn);
      AddVariantsExact(AddTokenRules(ps, tokens[..n], syn), TokenVariants(tokens[n]), syn);
    }
  }

  /** The phrase phase adds exactly the synonyms of the rules that fire. */
  lemma {:induction false} AddPhraseRulesExact(ps: seq<string>, rules: Dict<seq<string>>, lowerQuery: string)
    ensures forall x :: x in AddPhraseRules(ps, rules, lowerQuery) <==> x in ps || RulesAdd(rules, lowerQuery, x)
    decreases |rules|
  {
    if rules != [] {
      AddPhraseRulesExact(ps, rules[..|rules| - 1], lowerQuery);
    }
  }

  /** A phrase is collected exactly when a variant of a query token lists it
      as a synonym or a phrase rule that fires on the query lists it. */
  lemma ExtraPhrasesExact(query: string, cfg: QueryExpansions)
    ensures var normalized := NormalizeQuery(query);
      forall x :: x in ExtraPhrases(query, cfg) <==>
        TokensAdd(cfg.tokenSynonyms, TokenizeQuery(normalized), x)
        || RulesAdd(cfg.phraseSynonyms, LowerQuery(normalized), x)
  {
    var normalized := NormalizeQuery(query);
    AddTokenRulesExact([], TokenizeQuery(normalized), cfg.tokenSynonyms);
    AddPhraseRulesExact(AddTokenRules([], TokenizeQuery(normalized), cfg.tokenSynonyms),
                        cfg.phraseSynonyms, LowerQuery(normalized));
  }

  /** The variants in `vs` add the synonyms of each of them, and only
      those. */
  lemma {:induction false} VariantsAddIff(syn: Dict<seq<string>>, vs: seq<string>, x: string)
    ensures VariantsAdd(syn, vs, x) <==> exists v :: v in vs && x in Synonyms(syn, v)
    decreases |vs|
  {
    if vs != [] {
      var init := vs[..|vs| - 1];
      VariantsAddIff(syn, init, x);
      assert vs == init + [vs[|vs| - 1]];
    }
  }

  /** A token's variants add a synonym of the token itself. */
  lemma {:induction false} TokensAddAt(syn: Dict<seq<string>>, tokens: seq<string>, i: nat, x: string)
    requires i < |tokens| && TokenAdds(syn, tokens[i], x)
    ensures TokensAdd(syn, tokens, x)
    decreases |tokens|
  {
    var n := |tokens| - 1;
    if i < n {
      var init := tokens[..n];
      assert init[i] == tokens[i];
      TokensAddAt(syn, init, i, x);
      assert TokensAdd(syn, init, x);
    } else {
      assert TokenAdds(syn, tokens[n], x);
    }
  }

  /** None of the variants `vs` has a synonym. */
  predicate NoSynonyms(syn: Dict<seq<string>>, vs: seq<string>) {
    forall v :: v in vs ==> Synonyms(syn, v) == []
  }

  lemma {:induction false} NoVariantsAdd(syn: Dict<seq<string>>, vs: seq<string>, x: string)
    requires NoSynonyms(syn, vs)
    ensures !VariantsAdd(syn, vs, x)
    decreases |vs|
  {
    VariantsAddIff(syn, vs, x);
  }

  /** Tokens none of whose variants has synonyms add nothing. */
  lemma {:induction false} NoTokensAdd(syn: Dict<seq<string>>, tokens: seq<string>, x: string)
    requires forall i :: 0 <= i < |tokens| ==> NoSynonyms(syn, TokenVariants(tokens[i]))
    ensures !TokensAdd(syn, tokens, x)
    decreases |tokens|
  {
    if tokens != [] {
      var n := |tokens| - 1;
      var init := tokens[..n];
      assert forall i :: 0 <= i < n ==> init[i] == tokens[i];
      NoTokensAdd(syn, init, x);
      NoVariantsAdd(syn, TokenVariants(tokens[n]), x);
    }
  }

  /** Rules that fire only with empty lists add nothing. */
  lemma {:induction false} NoRulesAdd(rules: Dict<seq<string>>, lowerQuery: string, x: string)
    requires forall j :: 0 <= j < |rules| && PhraseMatches(rules[j].0, lowerQuery) ==> rules[j].1 == []
    ensures !RulesAdd(rules, lowerQuery, x)
    decreases |rules|
  {
    if rules != [] {
      var n := |rules| - 1;
      assert forall j :: 0 <= j < n ==> rules[..n][j] == rules[j];
      NoRulesAdd(rules[..n], lowerQuery, x);
    }
  }

  /** Without a token variant that has synonyms or a firing rule that lists
      any, both phases collect nothing. */
  lemma NothingCollected(tokens: seq<string>, syn: Dict<seq<string>>, rules: Dict<seq<string>>, lowerQuery: string)
    requires forall i :: 0 <= i < |tokens| ==> NoSynonyms(syn, TokenVariants(tokens[i]))
    requires forall j :: 0 <= j < |rules| && PhraseMatches(rules[j].0, lowerQuery) ==> rules[j].1 == []
    ensures AddPhraseRules(AddTokenRules([], tokens, syn), rules, lowerQuery) == []
  {
    var t := AddTokenRules([], tokens, syn);
    var r := AddPhraseRules(t, rules, lowerQuery);
    AddTokenRulesExact([], tokens, syn);
    AddPhraseRulesExact(t, rules, lowerQuery);
    if r != [] {
      NoTokensAdd(syn, tokens, r[0]);
      NoRulesAdd(rules, lowerQuery, r[0]);
      assert false;
    }
  }

  /** When no variant of a query token has synonyms and no phrase rule that
      fires lists any, the expanded query is the normalized query. */
  lemma NoRuleNoExpansion(query: string, cfg: QueryExpansions)
    requires var tokens := TokenizeQuery(NormalizeQuery(query));
      forall i :: 0 <= i < |tokens| ==> NoSynonyms(cfg.tokenSynonyms, TokenVariants(tokens[i]))
    requires var rules := cfg.phraseSynonyms;
      forall j :: 0 <= j < |rules| && PhraseMatches(rules[j].0, LowerQuery(NormalizeQuery(query))) ==> rules[j].1 == []
    ensures Expansion(query, cfg) == NormalizeQuery(query)
  {
    var normalized := NormalizeQuery(query);
    NothingCollected(TokenizeQuery(normalized), cfg.tokenSynonyms, cfg.phraseSynonyms, LowerQuery(normalized));
    assert ExtraPhrases(query, cfg) == [];
  }

  /** A synonym of a query token is collected, and when every collected
      phrase fits under `maxExtraPhrases` it occurs in the expanded query:
      the rule `{"car": ["automobile"]}` puts "automobile" into the
      expansion of a query with the token "car". */
  lemma TokenSynonymUsed(query: string, cfg: QueryExpansions, token: string, x: string)
    requires WellFormedSynonyms(cfg.tokenSynonyms) && WellFormedSynonyms(cfg.phraseSynonyms)
    requires token in TokenizeQuery(NormalizeQuery(query))
    requires x in Synonyms(cfg.tokenSynonyms, token)
    ensures x in ExtraPhrases(query, cfg)
    ensures cfg.maxExtraPhrases >= |ExtraPhrases(query, cfg)| ==> Contains(Expansion(query, cfg), x)
  {
    var tokens := TokenizeQuery(NormalizeQuery(query));
    var i :| 0 <= i < |tokens| && tokens[i] == token;
    assert token in TokenVariants(token);
    VariantsAddIff(cfg.tokenSynonyms, TokenVariants(token), x);
    TokensAddAt(cfg.tokenSynonyms, tokens, i, x);
    ExtraPhrasesExact(query, cfg);
    if cfg.maxExtraPhrases >= |ExtraPhrases(query, cfg)| {
      ExpansionContains(query, cfg, x);
    }
  }

  /** With well-formed rules the expanded query differs from the
      normalized query exactly when some phrase is kept. */
  lemma ExpansionUnchangedIff(query: string, cfg: QueryExpansions)
    requires WellFormedSynonyms(cfg.tokenSynonyms) && WellFormedSynonyms(cfg.phraseSynonyms)
    ensures Expansion(query, cfg) == NormalizeQuery(query) <==> LimitedPhrases(query, cfg) == []
  {
    var limited := LimitedPhrases(query, cfg);
    if limited != [] {
      LimitedArePhrases(query, cfg);
      NormalizeQueryNormalized(query);
      NormalizeAppendJoin(NormalizeQuery(query), limited);
      JoinNormalized(limited);
    }
  }

  /** Every phrase kept by the limit occurs in the expanded query. */
  lemma ExpansionContains(query: string, cfg: QueryExpansions, x: string)
    requires WellFormedSynonyms(cfg.tokenSynonyms) && WellFormedSynonyms(cfg.phraseSynonyms)
    requires x in LimitedPhrases(query, cfg)
    ensures Contains(Expansion(query, cfg), x)
  {
    LimitedArePhrases(query, cfg);
    NormalizeQueryNormalized(query);
    AppendedContains(NormalizeQuery(query), LimitedPhrases(query, cfg), x);
  }

  lemma AppendedContains(n: string, limited: seq<string>, x: string)
    requires Normalized(n) && Phrases(limited) && x in limited
    ensures Contains(NormalizeQuery(n + " " + Join(limited, " ")), x)
  {
    var k :| 0 <= k < |limited| && limited[k] == x;
    var j := Join(limited, " ");
    JoinContains(limited, " ", k);
    NormalizeAppendJoin(n, limited);
    if n != [] {
      ContainsAfter(n + " ", j, x);
    }
  }

  /** The kept phrases of well-formed rules are non-empty and normalized. */
  lemma LimitedArePhrases(query: string, cfg: QueryExpansions)
    requires WellFormedSynonyms(cfg.tokenSynonyms) && WellFormedSynonyms(cfg.phraseSynonyms)
    ensures Phrases(LimitedPhrases(query, cfg))
  {
    var limited := LimitedPhrases(query, cfg);
    var normalized := NormalizeQuery(query);
    ExtraPhrasesExact(query, cfg);
    forall k | 0 <= k < |limited| ensures limited[k] != [] && Normalized(limited[k]) {
      var x := limited[k];
      assert x in ExtraPhrases(query, cfg);
      if TokensAdd(cfg.tokenSynonyms, TokenizeQuery(normalized), x) {
        TokensAddPhrase(cfg.tokenSynonyms, TokenizeQuery(normalized), x);
      } else {
        RulesAddPhrase(cfg.phraseSynonyms, LowerQuery(normalized), x);
      }
    }
  }

  lemma {:induction false} TokensAddPhrase(syn: Dict<seq<string>>, tokens: seq<string>, x: string)
    requires WellFormedSynonyms(syn) && TokensAdd(syn, tokens, x)
    ensures x != [] && Normalized(x)
    decreases |tokens|
  {
    var n := |tokens| - 1;
    if TokensAdd(syn, tokens[..n], x) {
      TokensAddPhrase(syn, tokens[..n], x);
    } else {
      VariantsAddIff(syn, TokenVariants(tokens[n]), x);
      var v :| v in TokenVariants(tokens[n]) && x in Synonyms(syn, v);
      SynonymIsPhrase(syn, v, x);
    }
  }

  lemma {:induction false} RulesAddPhrase(rules: Dict<seq<string>>, lowerQuery: string, x: string)
    requires WellFormedSynonyms(rules) && RulesAdd(rules, lowerQuery, x)
    ensures x != [] && Normalized(x)
    decreases |rules|
  {
    var n := |rules| - 1;
    if RulesAdd(rules[..n], lowerQuery, x) {
      assert WellFormedSynonyms(rules[..n]) by {
        assert forall i :: 0 <= i < n ==> rules[..n][i] == rules[i];
      }
      RulesAddPhrase(rules[..n], lowerQuery, x);
    } else {
      var m :| 0 <= m < |rules[n].1| && rules[n].1[m] == x;
    }
  }

  lemma SynonymIsPhrase(syn: Dict<seq<string>>, v: string, x: string)
    requires WellFormedSynonyms(syn) && x in Synonyms(syn, v)
    ensures x != [] && Normalized(x)
  {
    GetFound(syn, v);
    var i :| 0 <= i < |syn| && syn[i] == (v, Get(syn, v).value);
    var m :| 0 <= m < |syn[i].1| && syn[i].1[m] == x;
  }

  /** Appending normalized phrases to a normalized query with single spaces
      leaves nothing for `normalizeQuery` to do but drop a leading space. */
  lemma NormalizeAppendJoin(n: string, limited: seq<string>)
    requires Normalized(n) && Phrases(limited) && limited != []
    ensures NormalizeQuery(n + " " + Join(limited, " ")) ==
      if n == [] then Join(limited, " ") else n + " " + Join(limited, " ")
  {
    var j := Join(limited, " ");
    JoinNormalized(limited);
    if n == [] {
      assert n + " " + j == " " + j;
      assert IsSpace(' ');
      assert TrimStart(" " + j) == TrimStart(j) by {
        assert (" " + j)[1..] == j;
      }
      assert Trim(" " + j) == Trim(j);
      NormalizeFixed(j);
    } else {
      SpaceJoinNormalized(n, j);
      NormalizeFixed(n + " " + j);
    }
  }

  /** Normalized phrases joined by single spaces are normalized. */
  lemma {:induction false} JoinNormalized(ps: seq<string>)
    requires Phrases(ps) && ps != []
    ensures Join(ps, " ") != [] && Normalized(Join(ps, " "))
    decreases |ps|
  {
    if |ps| > 1 {
      assert Phrases(ps[1..]) by {
        forall i | 0 <= i < |ps| - 1 ensures ps[1..][i] != [] && Normalized(ps[1..][i]) {
          assert ps[1..][i] == ps[i + 1];
        }
      }
      JoinNormalized(ps[1..]);
      SpaceJoinNormalized(ps[0], Join(ps[1..], " "));
    }
  }

  /** Two non-empty normalized strings joined by one space are normalized. */
  lemma SpaceJoinNormalized(a: string, b: string)
    requires a != [] && b != [] && Normalized(a) && Normalized(b)
    ensures Normalized(a + " " + b)
  {
    var s := a + " " + b;
    var m := |a|;
    assert forall i :: 0 <= i < m ==> s[i] == a[i];
    assert s[m] == ' ';
    assert forall i :: m < i < |s| ==> s[i] == b[i - m - 1];
    assert IsSpace(' ');
    forall i | 0 <= i < |s| - 1 ensures !RunAt(s, i, Whitespace) {
      if i < m - 1 {
        assert !RunAt(a, i, Whitespace);
      } else if i > m {
        assert !RunAt(b, i - m - 1, Whitespace);
      }
    }
  }

  /** `expandQuery`: the token phase and then the phrase phase fill one
      insertion-ordered set of phrases, of which the first
      `maxExtraPhrases` are appended to the normalized query.  The token
      phase reads the synonyms as the source does, so a variant naming an
      inherited property makes it throw. */
  method ExpandQuery(query: string, cfg: QueryExpansions) returns (r: Result<string, JsError>)
    ensures r == ExpansionAsWritten(query, cfg)
  {
    var normalized := NormalizeQuery(query);
    var tokens := TokenizeQuery(normalized);
    var tokenPhase := TokenPhase(tokens, cfg.tokenSynonyms);
    if tokenPhase.Failure? {
      return Failure(tokenPhase.error);
    }
    var phrases := PhrasePhase(tokenPhase.value, cfg.phraseSynonyms, LowerQuery(normalized));
    var limited := phrases[..SliceEnd(|phrases|, cfg.maxExtraPhrases)];
    if |limited| == 0 {
      r := Success(normalized);
    } else {
      r := Success(NormalizeQuery(normalized + " " + Join(limited, " ")));
    }
  }

  /** The first loop of `expandQuery`, over the tokens and their variants;
      the first lookup that throws ends it. */
  method TokenPhase(tokens: seq<string>, syn: Dict<seq<string>>) returns (r: Result<seq<string>, JsError>)
    ensures r == AddTokenRulesAsWritten([], tokens, syn)
  {
    var phrases := [];
    for i := 0 to |tokens|
      invariant AddTokenRulesAsWritten([], tokens[..i], syn) == Success(phrases)
    {
      var variants := TokenVariants(tokens[i]);
      ghost var before := phrases;
      for j := 0 to |variants|
        invariant AddVariantsAsWritten(before, variants[..j], syn) == Success(phrases)
      {
        var adds := SynonymsAsWritten(syn, variants[j]);
        VariantStep(before, variants, j, syn, phrases);
        if adds.Failure? {
          VariantsFailureStays(before, variants, j + 1, syn, adds.error);
          TokenStep([], tokens, i, syn, before);
          TokensFailureStays([], tokens, i + 1, syn, adds.error);
          return Failure(adds.error);
        }
        phrases := AddEach(phrases, adds.value);
      }
      assert variants[..|variants|] == variants;
      TokenStep([], tokens, i, syn, before);
    }
    assert tokens[..|tokens|] == tokens;
    r := Success(phrases);
  }

  /** One more variant: its lookup's outcome extends the prefix's. */
  lemma VariantStep(ps: seq<string>, vs: seq<string>, j: nat, syn: Dict<seq<string>>, p: seq<string>)
    requires j < |vs| && AddVariantsAsWritten(ps, vs[..j], syn) == Success(p)
    ensures var adds := SynonymsAsWritten(syn, vs[j]);
      AddVariantsAsWritten(ps, vs[..j + 1], syn) == if adds.Failure? then Failure(adds.error) else Success(AddAll(p, adds.value))
  {
    assert vs[..j + 1][..j] == vs[..j];
  }

  /** One more token: the token's variants continue from the prefix's phrases. */
  lemma TokenStep(ps: seq<string>, tokens: seq<string>, i: nat, syn: Dict<seq<string>>, p: seq<string>)
    requires i < |tokens| && AddTokenRulesAsWritten(ps, tokens[..i], syn) == Success(p)
    ensures AddTokenRulesAsWritten(ps, tokens[..i + 1], syn) == AddVariantsAsWritten(p, TokenVariants(tokens[i]), syn)
  {
    assert tokens[..i + 1][..i] == tokens[..i];
  }

  /** Once a prefix of the variants throws, the whole token throws the same. */
  lemma {:induction false} VariantsFailureStays(ps: seq<string>, vs: seq<string>, n: nat, syn: Dict<seq<string>>, e: JsError)
    requires n <= |vs| && AddVariantsAsWritten(ps, vs[..n], syn) == Failure(e)
    ensures AddVariantsAsWritten(ps, vs, syn) == Failure(e)
    decreases |vs|
  {
    if n == |vs| {
      assert vs[..n] == vs;
    } else {
      var init := vs[..|vs| - 1];
      assert init[..n] == vs[..n];
      VariantsFailureStays(ps, init, n, syn, e);
    }
  }

  /** Once a prefix of the tokens throws, the whole token phase throws the same. */
  lemma {:induction false} TokensFailureStays(ps: seq<string>, tokens: seq<string>, n: nat, syn: Dict<seq<string>>, e: JsError)
    requires n <= |tokens| && AddTokenRulesAsWritten(ps, tokens[..n], syn) == Failure(e)
    ensures AddTokenRulesAsWritten(ps, tokens, syn) == Failure(e)
    decreases |tokens|
  {
    if n == |tokens| {
      assert tokens[..n] == tokens;
    } else {
      var init := tokens[..|tokens| - 1];
      assert init[..n] == tokens[..n];
      TokensFailureStays(ps, init, n, syn, e);
    }
  }

  /** The second loop of `expandQuery`, over the phrase rules. */
  method PhrasePhase(ps: seq<string>, rules: Dict<seq<string>>, lowerQuery: string) returns (phrases: seq<string>)
    ensures phrases == AddPhraseRules(ps, rules, lowerQuery)
  {
    phrases := ps;
    for i := 0 to |rules|
      invariant phrases == AddPhraseRules(ps, rules[..i], lowerQuery)
    {
      var needle := Needle(rules[i].0);
      if Trim(needle) != [] && Contains(lowerQuery, needle) {
        phrases := AddEach(phrases, rules[i].1);
      }
      assert rules[..i + 1][..i] == rules[..i];
    }
    assert rules[..|rules|] == rules;
  }

  /** `for (const a of adds) phrases.add(a)` */
  method AddEach(phrases: seq<string>, adds: seq<string>) returns (r: seq<string>)
    ensures r == AddAll(phrases, adds)
  {
    r := phrases;
    for m := 0 to |adds|
      invariant r == AddAll(phrases, adds[..m])
    {
      r := SetAdd(r, adds[m]);
      assert adds[..m + 1][..m] == adds[..m];
    }
    assert adds[..|adds|] == adds;
  }

  /** The property names every plain object inherits from `Object.prototype`;
      none of their values is iterable. */
  const InheritedProperties: set<string> := {
    "constructor", "hasOwnProperty", "isPrototypeOf", "propertyIsEnumerable",
    "toLocaleString", "toString", "valueOf", "__proto__", "__defineGetter__",
    "__defineSetter__", "__lookupGetter__", "__lookupSetter__"}

  /** `queryExpansions.tokenSynonyms[variant]` followed by `for (const a of
      adds)`, as the source writes it: a plain property read, which also
      finds the inherited members, and iterating one of those throws. */
  function SynonymsAsWritten(syn: Dict<seq<string>>, v: string): Result<seq<string>, JsError> {
    if HasKey(syn, v) then Success(Get(syn, v).value)
    else if v in InheritedProperties then Failure(JsError("TypeError", "adds is not iterable", None))
    else Success([])
  }

  function AddVariantsAsWritten(ps: seq<string>, vs: seq<string>, syn: Dict<seq<string>>): Result<seq<string>, JsError>
    decreases |vs|
  {
    if vs == [] then Success(ps)
    else
      var p :- AddVariantsAsWritten(ps, vs[..|vs| - 1], syn);
      var adds :- SynonymsAsWritten(syn, vs[|vs| - 1]);
      Success(AddAll(p, adds))
  }

  function AddTokenRulesAsWritten(ps: seq<string>, tokens: seq<string>, syn: Dict<seq<string>>): Result<seq<string>, JsError>
    decreases |tokens|
  {
    if tokens == [] then Success(ps)
    else
      var p :- AddTokenRulesAsWritten(ps, tokens[..|tokens| - 1], syn);
      AddVariantsAsWritten(p, TokenVariants(tokens[|tokens| - 1]), syn)
  }

  /** `expandQuery` as written: it throws when a token variant names an
      inherited property that the configuration does not define. */
  function ExpansionAsWritten(query: string, cfg: QueryExpansions): Result<string, JsError> {
    var normalized := NormalizeQuery(query);
    var tokenPhase :- AddTokenRulesAsWritten([], TokenizeQuery(normalized), cfg.tokenSynonyms);
    var all := AddPhraseRules(tokenPhase, cfg.phraseSynonyms, LowerQuery(normalized));
    var limited := all[..SliceEnd(|all|, cfg.maxExtraPhrases)];
    if limited == [] then Success(normalized)
    else Success(NormalizeQuery(normalized + " " + Join(limited, " ")))
  }

  /** A variant the lookup treats differently from an own-property read. */
  predicate Inherited(syn: Dict<seq<string>>, v: string) {
    v in InheritedProperties && !HasKey(syn, v)
  }

  lemma {:induction false} AddVariantsAgree(ps: seq<string>, vs: seq<string>, syn: Dict<seq<string>>)
    requires forall i :: 0 <= i < |vs| ==> !Inherited(syn, vs[i])
    ensures AddVariantsAsWritten(ps, vs, syn) == Success(AddVariants(ps, vs, syn))
    decreases |vs|
  {
    if vs != [] {
      AddVariantsAgree(ps, vs[..|vs| - 1], syn);
    }
  }

  lemma {:induction false} AddTokenRulesAgree(ps: seq<string>, tokens: seq<string>, syn: Dict<seq<string>>)
    requires forall i, v :: 0 <= i < |tokens| && v in TokenVariants(tokens[i]) ==> !Inherited(syn, v)
    ensures AddTokenRulesAsWritten(ps, tokens, syn) == Success(AddTokenRules(ps, tokens, syn))
    decreases |tokens|
  {
    if tokens != [] {
      var last := tokens[|tokens| - 1];
      AddTokenRulesAgree(ps, tokens[..|tokens| - 1], syn);
      AddVariantsAgree(AddTokenRules(ps, tokens[..|tokens| - 1], syn), TokenVariants(last), syn);
    }
  }

  /** Where no token variant names an inherited property missing from the
      configuration, the source and the corrected lookup agree. */
  lemma ExpansionAgrees(query: string, cfg: QueryExpansions)
    requires forall t, v :: t in TokenizeQuery(NormalizeQuery(query)) && v in TokenVariants(t) ==>
      !Inherited(cfg.tokenSynonyms, v)
    ensures ExpansionAsWritten(query, cfg) == Success(Expansion(query, cfg))
  {
    AddTokenRulesAgree([], TokenizeQuery(NormalizeQuery(query)), cfg.tokenSynonyms);
  }

  /** A query that is just the word "constructor" makes the source throw
      under the default configuration. */
  lemma ConstructorQueryThrows()
    ensures ExpansionAsWritten("constructor", DefaultQueryExpansions).Failure?
  {
    ConstructorTokenPhase();
    TokenPhaseFailurePropagates("constructor", DefaultQueryExpansions);
  }

  lemma ConstructorTokenPhase()
    ensures AddTokenRulesAsWritten([], TokenizeQuery(NormalizeQuery("constructor")), []).Failure?
  {
    var q := "constructor";
    ConstructorNormalized();
    ConstructorTokens();
    ConstructorVariants();
    ConstructorLookupThrows();
    assert [q][..0] == [];
  }

  lemma TokenPhaseFailurePropagates(query: string, cfg: QueryExpansions)
    requires AddTokenRulesAsWritten([], TokenizeQuery(NormalizeQuery(query)), cfg.tokenSynonyms).Failure?
    ensures ExpansionAsWritten(query, cfg).Failure?
  {
  }

  lemma ConstructorLookupThrows()
    ensures AddVariantsAsWritten([], ["constructor"], []).Failure?
  {
    assert "constructor" in InheritedProperties;
    assert ["constructor"][..0] == [];
    assert SynonymsAsWritten([], "constructor").Failure?;
  }

  lemma ConstructorChars()
    ensures forall i :: 0 <= i < |"constructor"| ==>
      IsTokenChar("constructor"[i]) && !IsSpace("constructor"[i]) && LowerChar("constructor"[i]) == "constructor"[i]
  {
  }

  lemma ConstructorNormalized()
    ensures NormalizeQuery("constructor") == "constructor"
  {
    ConstructorChars();
    NormalizeFixed("constructor");
  }

  lemma ConstructorVariants()
    ensures TokenVariants("constructor") == ["constructor"]
  {
    ConstructorNoApostrophe();
    ConstructorNotPlural();
    SingleVariant("constructor");
  }

  /** A singular token without apostrophes is its only variant. */
  lemma SingleVariant(token: string)
    requires token != [] && RemoveApostrophes(token) == token && !Plural(token)
    ensures TokenVariants(token) == [token]
  {
    assert SetAdd([token], token) == [token];
    assert NonEmpty([token]) == [token] + NonEmpty([]);
  }

  lemma ConstructorNoApostrophe()
    ensures RemoveApostrophes("constructor") == "constructor"
  {
    var q := "constructor";
    assert '\'' !in q by {
      assert forall i :: 0 <= i < |q| ==> q[i] != '\'';
    }
    RemoveApostrophesNone(q);
  }

  lemma ConstructorNotPlural()
    ensures !Plural("constructor")
  {
    var q := "constructor";
    assert q[|q| - 1..] == "r";
  }

  lemma ConstructorClean()
    ensures CleanQuery("constructor") == "constructor"
  {
    var q := "constructor";
    ConstructorLower();
    ConstructorCollapsed();
    ConstructorChars();
    TrimUnchanged(q);
  }

  lemma ConstructorLower()
    ensures ToLower("constructor") == "constructor"
  {
    ConstructorChars();
  }

  lemma ConstructorCollapsed()
    ensures CollapseRuns("constructor", NonTokenChar, ' ') == "constructor"
  {
    ConstructorChars();
    CollapseFixed("constructor", NonTokenChar, ' ');
  }

  lemma ConstructorTokens()
    ensures TokenizeQuery("constructor") == ["constructor"]
  {
    ConstructorChars();
    ConstructorClean();
    WordsSingle("constructor");
  }
}
