/**
  * The browser's list of recent ingestions: putting an item at the front
  * of the list, and reading the list back from local storage, where older
  * shapes of an item are still accepted.  Local storage, `JSON.parse` and
  * the clock are parameters.
  */
module HistoryStorage {
  import opened Wrappers
  import opened Js

  datatype HistoryItem = HistoryItem(ingestionId: string, fileName: string, isUrl: bool, createdAt: real)

  const HistoryStorageKey := "lssai.history.v1"
  const HistoryLimit := 10

  /** The first `n` entries, or all of them when there are fewer. */
  function Take<T>(s: seq<T>, n: nat): (r: seq<T>)
    ensures |r| <= n && r <= s
    ensures |s| <= n ==> r == s
    ensures |s| > n ==> r == s[..n]
  {
    if |s| <= n then s else s[..n]
  }

  /** The entries whose ingestion id is not `id`, in their order. */
  function Without(prev: seq<HistoryItem>, id: string): seq<HistoryItem> {
    if prev == [] then []
    else if prev[0].ingestionId == id then Without(prev[1..], id)
    else [prev[0]] + Without(prev[1..], id)
  }

  /** `a` is `b` with some entries left out, the rest in their order. */
  predicate IsSubsequence<T(==)>(a: seq<T>, b: seq<T>)
    decreases |b|
  {
    if a == [] then true
    else if b == [] then false
    else (a[0] == b[0] && IsSubsequence(a[1..], b[1..])) || IsSubsequence(a, b[1..])
  }

  /** `Without` keeps exactly the entries with another id, in their order. */
  lemma {:induction false} WithoutResult(prev: seq<HistoryItem>, id: string)
    ensures forall h :: h in Without(prev, id) <==> h in prev && h.ingestionId != id
    ensures IsSubsequence(Without(prev, id), prev)
    ensures |Without(prev, id)| <= |prev|
  {
    if prev != [] {
      WithoutResult(prev[1..], id);
      var w := Without(prev, id);
      if prev[0].ingestionId != id {
        assert w[1..] == Without(prev[1..], id);
      }
    }
  }

  /** A list without the id is left as it is. */
  lemma {:induction false} WithoutNothing(prev: seq<HistoryItem>, id: string)
    requires forall k :: 0 <= k < |prev| ==> prev[k].ingestionId != id
    ensures Without(prev, id) == prev
  {
    if prev != [] {
      WithoutNothing(prev[1..], id);
    }
  }

  /** A prefix of a subsequence is a subsequence. */
  lemma {:induction false} SubsequencePrefix<T>(a: seq<T>, b: seq<T>, n: nat)
    requires IsSubsequence(a, b) && n <= |a|
    ensures IsSubsequence(a[..n], b)
    decreases |b|
  {
    if n > 0 {
      if a[0] == b[0] && IsSubsequence(a[1..], b[1..]) {
        SubsequencePrefix(a[1..], b[1..], n - 1);
        assert a[..n][1..] == a[1..][..n - 1];
      } else {
        SubsequencePrefix(a, b[1..], n);
      }
    }
  }

  /** `upsertHistoryItem`: the item first, then the other entries without
      its id, cut to the limit. */
  function Upsert(prev: seq<HistoryItem>, item: HistoryItem): seq<HistoryItem> {
    Take([item] + Without(prev, item.ingestionId), HistoryLimit)
  }

  /** The new item comes first and only once by id, the other entries keep
      their order and are the first ones with another id, and the list holds
      at most 10 entries. */
  lemma UpsertResult(prev: seq<HistoryItem>, item: HistoryItem)
    ensures var r := Upsert(prev, item);
      && 1 <= |r| <= HistoryLimit
      && r[0] == item
      && (forall k :: 1 <= k < |r| ==> r[k].ingestionId != item.ingestionId && r[k] in prev)
      && r[1..] <= Without(prev, item.ingestionId)
      && IsSubsequence(r[1..], prev)
      && |r| == if 1 + |Without(prev, item.ingestionId)| < HistoryLimit then 1 + |Without(prev, item.ingestionId)| else HistoryLimit
  {
    var w := Without(prev, item.ingestionId);
    var r := Upsert(prev, item);
    WithoutResult(prev, item.ingestionId);
    assert r[1..] == w[..|r| - 1];
    SubsequencePrefix(w, prev, |r| - 1);
    forall k | 1 <= k < |r|
      ensures r[k].ingestionId != item.ingestionId && r[k] in prev
    {
      assert r[k] == w[k - 1];
    }
  }

  /** Upserting the same item twice is upserting it once. */
  lemma UpsertIdempotent(prev: seq<HistoryItem>, item: HistoryItem)
    ensures Upsert(Upsert(prev, item), item) == Upsert(prev, item)
  {
    var r := Upsert(prev, item);
    UpsertResult(prev, item);
    WithoutNothing(r[1..], item.ingestionId);
    assert r == [item] + r[1..];
    assert Without(r, item.ingestionId) == r[1..];
  }

  /** A non-empty string field of a parsed object. */
  function NonEmptyString(v: Json, key: string): Option<string> {
    match Field(v, key)
    case Some(JStr(s)) => if s != "" then Some(s) else None
    case _ => None
  }

  /** A number field of a parsed object. */
  function NumberField(v: Json, key: string): Option<real> {
    match Field(v, key)
    case Some(JNum(n)) => Some(n)
    case _ => None
  }

  /** One stored entry read back: the id from `ingestionId` or the older
      `id`, the name from `fileName` or `name` or else "audio", the URL flag
      from `isUrl` or else whether `url` is a non-empty string, and the time
      from `createdAt` or `createdAtMs` or else `now`.  An entry that is not
      an object or has no id is dropped. */
  function ItemOf(v: Json, now: real): Option<HistoryItem> {
    var id := match NonEmptyString(v, "ingestionId")
      case Some(s) => s
      case None => match NonEmptyString(v, "id") case Some(s) => s case None => "";
    if !v.JObj? || id == "" then None
    else
      var fileName := match NonEmptyString(v, "fileName")
        case Some(s) => s
        case None => match NonEmptyString(v, "name") case Some(s) => s case None => "audio";
      var isUrl := match Field(v, "isUrl")
        case Some(JBool(b)) => b
        case _ => NonEmptyString(v, "url").Some?;
      var createdAt := match NumberField(v, "createdAt")
        case Some(n) => n
        case None => match NumberField(v, "createdAtMs") case Some(n) => n case None => now;
      Some(HistoryItem(id, fileName, isUrl, createdAt))
  }

  /** An entry read back has a non-empty id and name; the id, the name and
      the time come from the newer field when it is set and from the older
      one otherwise, and a boolean `isUrl` is kept as it is. */
  lemma ItemOfResult(v: Json, now: real)
    ensures ItemOf(v, now).Some? <==> v.JObj? && (NonEmptyString(v, "ingestionId").Some? || NonEmptyString(v, "id").Some?)
    ensures ItemOf(v, now).Some? ==> var it := ItemOf(v, now).value;
      && it.ingestionId != "" && it.fileName != ""
      && (NonEmptyString(v, "ingestionId").Some? ==> it.ingestionId == NonEmptyString(v, "ingestionId").value)
      && (NonEmptyString(v, "ingestionId").None? ==> it.ingestionId == NonEmptyString(v, "id").value)
      && (NonEmptyString(v, "fileName").Some? ==> it.fileName == NonEmptyString(v, "fileName").value)
      && (NonEmptyString(v, "fileName").None? && NonEmptyString(v, "name").Some? ==> it.fileName == NonEmptyString(v, "name").value)
      && (NonEmptyString(v, "fileName").None? && NonEmptyString(v, "name").None? ==> it.fileName == "audio")
      && (Field(v, "isUrl").Some? && Field(v, "isUrl").value.JBool? ==> it.isUrl == Field(v, "isUrl").value.b)
      && (Field(v, "isUrl").None? || !Field(v, "isUrl").value.JBool? ==> (it.isUrl <==> NonEmptyString(v, "url").Some?))
      && (NumberField(v, "createdAt").Some? ==> it.createdAt == NumberField(v, "createdAt").value)
      && (NumberField(v, "createdAt").None? && NumberField(v, "createdAtMs").Some? ==> it.createdAt == NumberField(v, "createdAtMs").value)
      && (NumberField(v, "createdAt").None? && NumberField(v, "createdAtMs").None? ==> it.createdAt == now)
  {
  }

  /** The entries read back from a parsed list, in order. */
  function Items(vs: seq<Json>, now: real): seq<HistoryItem> {
    if vs == [] then []
    else
      var init := Items(vs[..|vs| - 1], now);
      match ItemOf(vs[|vs| - 1], now)
      case None => init
      case Some(it) => init + [it]
  }

  /** What `loadHistoryFromStorage` returns for the stored text `raw`;
      `parse` is `JSON.parse`, `None` when it throws. */
  function Loaded(raw: Option<string>, parse: string -> Option<Json>, now: real): seq<HistoryItem> {
    if raw.None? || raw.value == "" then []
    else match parse(raw.value)
      case Some(JArr(vs)) => Take(Items(vs, now), HistoryLimit)
      case _ => []
  }

  /** `loadHistoryFromStorage`: each entry of the stored list is read in
      turn, the ones that cannot be read are skipped. */
  method LoadHistoryFromStorage(raw: Option<string>, parse: string -> Option<Json>, now: real) returns (items: seq<HistoryItem>)
    ensures items == Loaded(raw, parse, now)
  {
    if raw.None? || raw.value == "" {
      return [];
    }
    var parsed := parse(raw.value);
    if parsed.None? || !parsed.value.JArr? {
      return [];
    }
    var vs := parsed.value.items;
    items := [];
    var i := 0;
    while i < |vs|
      invariant 0 <= i <= |vs|
      invariant items == Items(vs[..i], now)
    {
      assert vs[..i + 1][..i] == vs[..i];
      var it := ItemOf(vs[i], now);
      if it.Some? {
        items := items + [it.value];
      }
      i := i + 1;
    }
    assert vs[..i] == vs;
    items := Take(items, HistoryLimit);
  }

  /** Every entry read back comes from some stored entry. */
  lemma {:induction false} ItemsFrom(vs: seq<Json>, now: real, k: nat)
    requires k < |Items(vs, now)|
    ensures exists i :: 0 <= i < |vs| && ItemOf(vs[i], now) == Some(Items(vs, now)[k])
  {
    var init := vs[..|vs| - 1];
    if k < |Items(init, now)| {
      ItemsFrom(init, now, k);
      var i :| 0 <= i < |init| && ItemOf(init[i], now) == Some(Items(init, now)[k]);
      assert vs[i] == init[i];
    } else {
      assert ItemOf(vs[|vs| - 1], now) == Some(Items(vs, now)[k]);
    }
  }

  /** At most 10 entries come back, each with an id and a name, each read
      from a stored entry; no stored text, text that does not parse, and
      anything but a list give none. */
  lemma LoadedResult(raw: Option<string>, parse: string -> Option<Json>, now: real)
    ensures |Loaded(raw, parse, now)| <= HistoryLimit
    ensures forall k :: 0 <= k < |Loaded(raw, parse, now)| ==>
      Loaded(raw, parse, now)[k].ingestionId != "" && Loaded(raw, parse, now)[k].fileName != ""
    ensures raw.Some? && raw.value != "" && parse(raw.value).Some? && parse(raw.value).value.JArr? ==>
      forall k :: 0 <= k < |Loaded(raw, parse, now)| ==>
        exists i :: 0 <= i < |parse(raw.value).value.items| && ItemOf(parse(raw.value).value.items[i], now) == Some(Loaded(raw, parse, now)[k])
    ensures raw.None? || raw == Some("") || parse(raw.value).None? || !parse(raw.value).value.JArr? ==> Loaded(raw, parse, now) == []
  {
    var r := Loaded(raw, parse, now);
    if raw.Some? && raw.value != "" && parse(raw.value).Some? && parse(raw.value).value.JArr? {
      var vs := parse(raw.value).value.items;
      forall k | 0 <= k < |r|
        ensures r[k].ingestionId != "" && r[k].fileName != ""
        ensures exists i :: 0 <= i < |vs| && ItemOf(vs[i], now) == Some(r[k])
      {
        assert r[k] == Items(vs, now)[k];
        ItemsFrom(vs, now, k);
        var i :| 0 <= i < |vs| && ItemOf(vs[i], now) == Some(r[k]);
        ItemOfResult(vs[i], now);
      }
    }
  }
}
