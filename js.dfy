/**
  * The JavaScript values the system passes around: metadata dictionaries,
  * parsed JSON bodies, and thrown errors.
  */
module Js {
  import opened Wrappers

  /** An ordered dictionary of a plain object's own string keys, each key
      once, kept in insertion order.  (JavaScript itself enumerates the
      integer-like keys first, in ascending order; that is not modelled.) */
  type Dict<T> = seq<(string, T)>

  predicate UniqueKeys<T>(d: Dict<T>) {
    forall i, j :: 0 <= i < j < |d| ==> d[i].0 != d[j].0
  }

  function Keys<T>(d: Dict<T>): (ks: seq<string>)
    ensures |ks| == |d| && forall i :: 0 <= i < |d| ==> ks[i] == d[i].0
  {
    if d == [] then [] else [d[0].0] + Keys(d[1..])
  }

  predicate HasKey<T>(d: Dict<T>, k: string) {
    k in Keys(d)
  }

  /** `k in d ? d[k] : undefined`, with `None` for an absent key. */
  function Get<T>(d: Dict<T>, k: string): (r: Option<T>)
    ensures r.None? <==> !HasKey(d, k)
  {
    if d == [] then None
    else if d[0].0 == k then Some(d[0].1)
    else Get(d[1..], k)
  }

  /** A key finds the value of its first occurrence. */
  lemma {:induction false} GetAt<T>(d: Dict<T>, k: string, n: nat)
    requires n < |d| && d[n].0 == k && forall i :: 0 <= i < n ==> d[i].0 != k
    ensures Get(d, k) == Some(d[n].1)
  {
    if n > 0 {
      assert d[1..][n - 1] == d[n];
      GetAt(d[1..], k, n - 1);
    }
  }

  /** What `Get` finds is an entry of the dictionary under that key. */
  lemma {:induction false} GetFound<T>(d: Dict<T>, k: string)
    requires HasKey(d, k)
    ensures (k, Get(d, k).value) in d
  {
    if d[0].0 != k {
      assert Keys(d) == [d[0].0] + Keys(d[1..]);
      GetFound(d[1..], k);
    }
  }

  /** With unique keys, every entry under `k` is the one `Get` finds. */
  lemma GetUnique<T>(d: Dict<T>, k: string, n: nat)
    requires UniqueKeys(d) && n < |d| && d[n].0 == k
    ensures Get(d, k) == Some(d[n].1)
  {
    GetAt(d, k, n);
  }

  /** `d[k] = v`: an existing key keeps its position, a new key is appended. */
  function Set<T>(d: Dict<T>, k: string, v: T): (r: Dict<T>)
    ensures |r| == if HasKey(d, k) then |d| else |d| + 1
  {
    if d == [] then [(k, v)]
    else if d[0].0 == k then [(k, v)] + d[1..]
    else
      assert Keys(d) == [d[0].0] + Keys(d[1..]);
      [d[0]] + Set(d[1..], k, v)
  }

  /** The keys after `d[k] = v`, in order. */
  lemma {:induction false} SetKeys<T>(d: Dict<T>, k: string, v: T)
    ensures Keys(Set(d, k, v)) == if HasKey(d, k) then Keys(d) else Keys(d) + [k]
  {
    if d != [] {
      assert Keys(d) == [d[0].0] + Keys(d[1..]);
      if d[0].0 != k {
        SetKeys(d[1..], k, v);
        assert Keys(Set(d, k, v)) == [d[0].0] + Keys(Set(d[1..], k, v));
      } else {
        assert Keys(Set(d, k, v)) == [k] + Keys(d[1..]);
      }
    }
  }

  /** Setting a new key appends it. */
  lemma {:induction false} SetAppends<T>(d: Dict<T>, k: string, v: T)
    requires !HasKey(d, k)
    ensures Set(d, k, v) == d + [(k, v)]
  {
    if d != [] {
      assert Keys(d) == [d[0].0] + Keys(d[1..]);
      SetAppends(d[1..], k, v);
      assert d == [d[0]] + d[1..];
    }
  }

  /** After `d[k] = v`, `d[k]` is `v`. */
  lemma {:induction false} SetGet<T>(d: Dict<T>, k: string, v: T)
    ensures Get(Set(d, k, v), k) == Some(v)
  {
    if d != [] && d[0].0 != k {
      SetGet(d[1..], k, v);
      assert Set(d, k, v)[1..] == Set(d[1..], k, v);
    }
  }

  lemma {:induction false} SetOther<T>(d: Dict<T>, k: string, v: T, k': string)
    requires k' != k
    ensures Get(Set(d, k, v), k') == Get(d, k')
  {
    if d != [] && d[0].0 != k {
      SetOther(d[1..], k, v, k');
      assert Set(d, k, v)[1..] == Set(d[1..], k, v);
    }
  }

  /** Every entry of `Set(d, k, v)` is an entry of `d` or is `(k, v)`. */
  lemma {:induction false} SetEntries<T>(d: Dict<T>, k: string, v: T)
    ensures forall i :: 0 <= i < |Set(d, k, v)| ==> Set(d, k, v)[i] == (k, v) || Set(d, k, v)[i] in d
  {
    if d != [] && d[0].0 != k {
      SetEntries(d[1..], k, v);
      var r := Set(d, k, v);
      assert r == [d[0]] + Set(d[1..], k, v);
      forall i | 0 <= i < |r| ensures r[i] == (k, v) || r[i] in d {
        if i > 0 {
          assert r[i] == Set(d[1..], k, v)[i - 1];
        }
      }
    }
  }

  /** Appending an entry with a new key keeps the keys distinct. */
  lemma AppendUnique<T>(d: Dict<T>, k: string, v: T)
    requires UniqueKeys(d) && k !in Keys(d)
    ensures UniqueKeys(d + [(k, v)])
    ensures Keys(d + [(k, v)]) == Keys(d) + [k]
  {
    var r := d + [(k, v)];
    forall i | 0 <= i < |d| ensures r[i].0 != k {
      assert Keys(d)[i] == d[i].0;
    }
  }

  lemma SetUnique<T>(d: Dict<T>, k: string, v: T)
    requires UniqueKeys(d)
    ensures UniqueKeys(Set(d, k, v))
  {
    var r := Set(d, k, v);
    SetKeys(d, k, v);
    forall i, j | 0 <= i < j < |r| ensures r[i].0 != r[j].0 {
      assert Keys(r)[i] == r[i].0 && Keys(r)[j] == r[j].0;
      if !HasKey(d, k) && j == |d| {
        assert Keys(r)[i] == Keys(d)[i];
      }
    }
  }

  /** A value held in a metadata dictionary or compared with `===`.
      Arrays and objects carry their heap identity `ref`, so that datatype
      equality is JavaScript's strict equality (two objects are `===` only
      when they are the same object). NaN and negative zero are not modelled. */
  datatype Value =
    | Undefined
    | Null
    | Bool(b: bool)
    | Num(n: real)
    | Str(s: string)
    | Arr(ref: nat, items: seq<Value>)
    | Obj(ref: nat, fields: Dict<Value>)

  /** JavaScript truthiness: `false`, `0`, `""`, `null` and `undefined` are falsy. */
  predicate Truthy(v: Value) {
    match v
    case Undefined => false
    case Null => false
    case Bool(b) => b
    case Num(n) => n != 0.0
    case Str(s) => s != ""
    case Arr(_, _) => true
    case Obj(_, _) => true
  }

  /** A value as `JSON.parse` returns it. */
  datatype Json =
    | JNull
    | JBool(b: bool)
    | JNum(n: real)
    | JStr(s: string)
    | JArr(items: seq<Json>)
    | JObj(fields: Dict<Json>)

  /** `obj.field` on a parsed value: `undefined` (here `None`) unless `obj` is
      an object with that own key. */
  function Field(j: Json, k: string): Option<Json> {
    if j.JObj? then Get(j.fields, k) else None
  }

  /** A LangChain `Document`: its text and its metadata object. */
  datatype Document = Document(pageContent: string, metadata: Dict<Value>)

  /** A thrown error: its `name`, `message`, and Node's `code` when present. */
  datatype JsError = JsError(name: string, message: string, code: Option<string>)

  /** Node's error for a missing file. */
  function Enoent(path: string): JsError {
    JsError("Error", "ENOENT: no such file or directory, open '" + path + "'", Some("ENOENT"))
  }
}
