/**
  * String helpers with the semantics of the JavaScript built-ins the system
  * uses: `\s` and `trim()`, `toLowerCase()`, `startsWith`/`endsWith`/`includes`,
  * `split`/`join`, and the global `replace(/[class]+/g, c)` idiom.
  */
module Text {
  import opened Wrappers

  /** The characters matched by the regular-expression class `\s` and removed
      by `String.prototype.trim`: ECMAScript WhiteSpace and LineTerminator. */
  predicate IsSpace(c: char) {
    || c == ' ' || c == '\t' || c == '\n' || c == '\U{000B}' || c == '\U{000C}' || c == '\r'
    || c == '\U{00A0}' || c == '\U{1680}' || ('\U{2000}' <= c <= '\U{200A}')
    || c == '\U{2028}' || c == '\U{2029}' || c == '\U{202F}' || c == '\U{205F}'
    || c == '\U{3000}' || c == '\U{FEFF}'
  }

  /** A character of a query token: `[a-z0-9']`. */
  predicate IsTokenChar(c: char) {
    ('a' <= c <= 'z') || ('0' <= c <= '9') || c == '\''
  }

  /** A character kept by the upload file-name sanitiser: `[a-zA-Z0-9._-]`. */
  predicate IsFileNameChar(c: char) {
    ('a' <= c <= 'z') || ('A' <= c <= 'Z') || ('0' <= c <= '9') || c == '.' || c == '_' || c == '-'
  }

  /** The character classes the system's regular expressions collapse. */
  datatype CharClass = Whitespace | NonTokenChar | NonFileNameChar

  predicate InClass(c: char, cls: CharClass) {
    match cls
    case Whitespace => IsSpace(c)
    case NonTokenChar => !IsTokenChar(c)
    case NonFileNameChar => !IsFileNameChar(c)
  }

  /** Positions `i` and `i + 1` both hold class characters. */
  predicate RunAt(s: string, i: nat, cls: CharClass)
    requires i + 1 < |s|
  {
    InClass(s[i], cls) && InClass(s[i + 1], cls)
  }

  lemma RunFreeCons(c: char, t: string, cls: CharClass)
    requires forall i :: 0 <= i < |t| - 1 ==> !RunAt(t, i, cls)
    requires t != [] ==> !(InClass(c, cls) && InClass(t[0], cls))
    ensures forall i :: 0 <= i < |[c] + t| - 1 ==> !RunAt([c] + t, i, cls)
  {
    forall i | 0 <= i < |[c] + t| - 1 ensures !RunAt([c] + t, i, cls) {
      if i > 0 {
        assert !RunAt(t, i - 1, cls);
      }
    }
  }

  /** The longest suffix of `s` that does not start with a character of class `p`. */
  function DropWhile(s: string, p: CharClass): (r: string)
    ensures |r| <= |s|
    ensures r != [] ==> !InClass(r[0], p)
  {
    if s != [] && InClass(s[0], p) then DropWhile(s[1..], p) else s
  }

  /** What `DropWhile` leaves is a suffix. */
  lemma {:induction false} DropWhileSuffix(s: string, p: CharClass)
    ensures DropWhile(s, p) == s[|s| - |DropWhile(s, p)|..]
  {
    if s != [] && InClass(s[0], p) {
      DropWhileSuffix(s[1..], p);
      assert s[1..][|s| - 1 - |DropWhile(s, p)|..] == s[|s| - |DropWhile(s, p)|..];
    }
  }

  /** A string made only of class characters is dropped entirely. */
  lemma {:induction false} DropWhileAll(s: string, p: CharClass)
    requires forall i :: 0 <= i < |s| ==> InClass(s[i], p)
    ensures DropWhile(s, p) == []
  {
    if s != [] {
      assert forall i :: 0 <= i < |s[1..]| ==> s[1..][i] == s[i + 1];
      DropWhileAll(s[1..], p);
    }
  }

  lemma DropWhileKeepsLast(s: string, p: CharClass)
    ensures s != [] && !InClass(s[|s| - 1], p) ==> DropWhile(s, p) != []
  {
    if s != [] && !InClass(s[|s| - 1], p) && DropWhile(s, p) == [] {
      DropWhileDropped(s, p, |s| - 1);
    }
  }

  /** Every character `DropWhile` removes is in the class. */
  lemma {:induction false} DropWhileDropped(s: string, p: CharClass, i: nat)
    requires i < |s| - |DropWhile(s, p)|
    ensures InClass(s[i], p)
  {
    if i > 0 {
      DropWhileDropped(s[1..], p, i - 1);
    }
  }

  /** The number of leading characters of `s` that do not satisfy `p`. */
  function RunLength(s: string, p: CharClass): (n: nat)
    ensures n <= |s|
    ensures forall i :: 0 <= i < n ==> !InClass(s[i], p)
    ensures n < |s| ==> InClass(s[n], p)
  {
    if s == [] || InClass(s[0], p) then 0 else 1 + RunLength(s[1..], p)
  }

  /** `s.trimStart()` */
  function TrimStart(s: string): (r: string)
    ensures |r| <= |s| && r == s[|s| - |r|..]
    ensures r != [] ==> !IsSpace(r[0])
  {
    DropWhileSuffix(s, Whitespace);
    DropWhile(s, Whitespace)
  }

  /** `s.trimEnd()` */
  function TrimEnd(s: string): (r: string)
    ensures |r| <= |s| && r == s[..|r|]
    ensures r != [] ==> !IsSpace(r[|r| - 1])
    ensures forall i :: |r| <= i < |s| ==> IsSpace(s[i])
  {
    if s != [] && IsSpace(s[|s| - 1]) then TrimEnd(s[..|s| - 1]) else s
  }

  /** `s.trim()` */
  function Trim(s: string): (r: string)
    ensures |r| <= |s|
    ensures r != [] ==> !IsSpace(r[0]) && !IsSpace(r[|r| - 1])
    ensures forall x :: x in r ==> x in s
  {
    var t := TrimStart(s);
    InSuffix(s, t);
    var r := TrimEnd(t);
    InPrefix(t, r);
    r
  }

  lemma InSuffix(s: string, t: string)
    requires |t| <= |s| && t == s[|s| - |t|..]
    ensures forall x :: x in t ==> x in s
  {
    forall x | x in t ensures x in s {
      var k :| 0 <= k < |t| && t[k] == x;
      assert s[|s| - |t| + k] == x;
    }
  }

  lemma InPrefix(s: string, t: string)
    requires |t| <= |s| && t == s[..|t|]
    ensures forall x :: x in t ==> x in s
  {
    forall x | x in t ensures x in s {
      var k :| 0 <= k < |t| && t[k] == x;
      assert s[k] == x;
    }
  }

  /** Trailing whitespace after a non-space character is trimmed from the
      second part only. */
  lemma {:induction false} TrimEndAppend(a: string, b: string)
    requires a != [] && !IsSpace(a[|a| - 1])
    ensures TrimEnd(a + b) == a + TrimEnd(b)
    decreases |b|
  {
    if b == [] {
      assert a + b == a;
      assert TrimEnd(a) == a;
    } else if IsSpace(b[|b| - 1]) {
      var b' := b[..|b| - 1];
      assert (a + b)[..|a + b| - 1] == a + b';
      TrimEndAppend(a, b');
    } else {
      assert (a + b)[|a + b| - 1] == b[|b| - 1];
    }
  }

  /** A string that trims to itself is left unchanged by `trim()`. */
  lemma TrimUnchanged(s: string)
    requires s != [] ==> !IsSpace(s[0]) && !IsSpace(s[|s| - 1])
    ensures Trim(s) == s
  {
    assert TrimStart(s) == s;
    assert TrimEnd(s) == s;
  }

  /** `s.replace(/[class]+/g, rep)`: every maximal run of characters of the
      class becomes the single character `rep`. */
  function CollapseRuns(s: string, cls: CharClass, rep: char): (r: string)
    ensures (r == []) == (s == [])
    decreases |s|
  {
    if s == [] then []
    else if InClass(s[0], cls) then
      DropWhileKeepsLast(s, cls);
      [rep] + CollapseRuns(DropWhile(s, cls), cls, rep)
    else
      [s[0]] + CollapseRuns(s[1..], cls, rep)
  }

  /** A leading class character becomes `rep`; a leading or trailing
      character outside the class is kept. */
  lemma {:induction false} CollapseEnds(s: string, cls: CharClass, rep: char)
    requires s != []
    ensures var r := CollapseRuns(s, cls, rep);
      && (InClass(s[0], cls) ==> r[0] == rep)
      && (!InClass(s[0], cls) ==> r[0] == s[0])
      && (!InClass(s[|s| - 1], cls) ==> r[|r| - 1] == s[|s| - 1])
    decreases |s|
  {
    if InClass(s[0], cls) {
      CollapseClassHead(s, cls, rep);
      var d := DropWhile(s, cls);
      if !InClass(s[|s| - 1], cls) {
        DropTail(s, cls);
        CollapseEnds(d, cls, rep);
      }
    } else {
      CollapseOtherHead(s, cls, rep);
      if |s| > 1 {
        CollapseEnds(s[1..], cls, rep);
      }
    }
  }

  /** The result is no longer than the input, holds class characters only as
      `rep`, and never two class characters in a row. */
  lemma {:induction false} CollapseShape(s: string, cls: CharClass, rep: char)
    ensures var r := CollapseRuns(s, cls, rep);
      && |r| <= |s|
      && (forall i :: 0 <= i < |r| ==> r[i] == rep || !InClass(r[i], cls))
      && (forall i :: 0 <= i < |r| - 1 ==> !RunAt(r, i, cls))
    decreases |s|
  {
    if s != [] {
      if InClass(s[0], cls) {
        var d := DropWhile(s, cls);
        CollapseShape(d, cls, rep);
        RunFreeCons(rep, CollapseRuns(d, cls, rep), cls);
        CollapseClassHead(s, cls, rep);
      } else {
        CollapseShape(s[1..], cls, rep);
        RunFreeCons(s[0], CollapseRuns(s[1..], cls, rep), cls);
        CollapseOtherHead(s, cls, rep);
      }
    }
  }

  /** A non-empty run of class characters collapses to one `rep`. */
  lemma {:induction false} CollapseRunOfClass(s: string, cls: CharClass, rep: char)
    requires s != [] && forall i :: 0 <= i < |s| ==> InClass(s[i], cls)
    ensures CollapseRuns(s, cls, rep) == [rep]
  {
    DropWhileSuffix(s, cls);
  }

  /** A string without class characters is left unchanged. */
  lemma {:induction false} CollapseNoClass(s: string, cls: CharClass, rep: char)
    requires forall i :: 0 <= i < |s| ==> !InClass(s[i], cls)
    ensures CollapseRuns(s, cls, rep) == s
  {
    if s != [] {
      CollapseNoClass(s[1..], cls, rep);
    }
  }

  /** Every character of `w` occurs in `s`. */
  predicate CharsFrom(w: string, s: string) {
    forall x :: x in w ==> x in s
  }

  /** A non-empty word without whitespace. */
  predicate IsWord(w: string) {
    w != [] && forall j :: 0 <= j < |w| ==> !IsSpace(w[j])
  }

  /** A string whose class characters are all `rep` and never adjacent is a
      fixed point of `CollapseRuns`. */
  lemma {:induction false} CollapseFixed(s: string, cls: CharClass, rep: char)
    requires forall i :: 0 <= i < |s| && InClass(s[i], cls) ==> s[i] == rep
    requires forall i :: 0 <= i < |s| - 1 ==> !RunAt(s, i, cls)
    ensures CollapseRuns(s, cls, rep) == s
  {
    if s != [] {
      var u := s[1..];
      TailFixedPre(s, cls, rep);
      CollapseFixed(u, cls, rep);
      assert |s| > 1 ==> !RunAt(s, 0, cls);
      CollapseHead(s, cls, rep);
    }
  }

  lemma TailFixedPre(s: string, cls: CharClass, rep: char)
    requires s != []
    requires forall i :: 0 <= i < |s| && InClass(s[i], cls) ==> s[i] == rep
    requires forall i :: 0 <= i < |s| - 1 ==> !RunAt(s, i, cls)
    ensures forall i :: 0 <= i < |s| - 2 ==> !RunAt(s[1..], i, cls)
    ensures forall i :: 0 <= i < |s| - 1 && InClass(s[1..][i], cls) ==> s[1..][i] == rep
  {
    forall i | 0 <= i < |s| - 2 ensures !RunAt(s[1..], i, cls) {
      assert !RunAt(s, i + 1, cls);
    }
  }

  lemma CollapseHead(s: string, cls: CharClass, rep: char)
    requires s != []
    requires InClass(s[0], cls) ==> s[0] == rep && (|s| > 1 ==> !InClass(s[1], cls))
    requires CollapseRuns(s[1..], cls, rep) == s[1..]
    ensures CollapseRuns(s, cls, rep) == s
  {
    if InClass(s[0], cls) {
      assert DropWhile(s[1..], cls) == s[1..];
      assert DropWhile(s, cls) == s[1..];
    }
  }

  lemma {:induction false} DropWhileAppend(a: string, b: string, p: CharClass)
    requires a != [] && !InClass(a[|a| - 1], p)
    ensures DropWhile(a + b, p) == DropWhile(a, p) + b
  {
    DropWhileFirst(a, b, p);
    if InClass(a[0], p) {
      assert a[1..][|a| - 2] == a[|a| - 1];
      DropWhileAppend(a[1..], b, p);
    }
  }

  /** One step of `DropWhile` on `a` and on `a + b`. */
  lemma DropWhileFirst(a: string, b: string, p: CharClass)
    requires a != []
    ensures InClass(a[0], p) ==>
      DropWhile(a + b, p) == DropWhile(a[1..] + b, p) && DropWhile(a, p) == DropWhile(a[1..], p)
    ensures !InClass(a[0], p) ==> DropWhile(a + b, p) == a + b && DropWhile(a, p) == a
  {
    assert (a + b)[0] == a[0];
    assert (a + b)[1..] == a[1..] + b;
  }

  /** Collapsing distributes over a split point that is not inside a run. */
  lemma {:induction false} CollapseAppend(a: string, b: string, cls: CharClass, rep: char)
    requires a == [] || !InClass(a[|a| - 1], cls)
    ensures CollapseRuns(a + b, cls, rep) == CollapseRuns(a, cls, rep) + CollapseRuns(b, cls, rep)
    decreases |a|
  {
    if a == [] {
      assert a + b == b;
    } else if InClass(a[0], cls) {
      var d := DropWhile(a, cls);
      DropTail(a, cls);
      CollapseAppend(d, b, cls, rep);
      CollapseAppendClass(a, b, cls, rep);
    } else {
      CollapseAppend(a[1..], b, cls, rep);
      CollapseAppendOther(a, b, cls, rep);
    }
  }

  lemma CollapseAppendClass(a: string, b: string, cls: CharClass, rep: char)
    requires a != [] && InClass(a[0], cls) && !InClass(a[|a| - 1], cls)
    requires var d := DropWhile(a, cls);
      CollapseRuns(d + b, cls, rep) == CollapseRuns(d, cls, rep) + CollapseRuns(b, cls, rep)
    ensures CollapseRuns(a + b, cls, rep) == CollapseRuns(a, cls, rep) + CollapseRuns(b, cls, rep)
  {
    var x, y := CollapseRuns(DropWhile(a, cls), cls, rep), CollapseRuns(b, cls, rep);
    CollapseClassAppendHead(a, b, cls, rep);
    CollapseClassHead(a, cls, rep);
    ConsAppend(rep, x, y);
  }

  lemma ConsAppend(c: char, x: string, y: string)
    ensures [c] + (x + y) == ([c] + x) + y
  {
  }

  lemma CollapseClassAppendHead(a: string, b: string, cls: CharClass, rep: char)
    requires a != [] && InClass(a[0], cls) && !InClass(a[|a| - 1], cls)
    ensures CollapseRuns(a + b, cls, rep) == [rep] + CollapseRuns(DropWhile(a, cls) + b, cls, rep)
  {
    assert (a + b)[0] == a[0];
    CollapseClassHead(a + b, cls, rep);
    DropWhileAppend(a, b, cls);
  }

  lemma CollapseAppendOther(a: string, b: string, cls: CharClass, rep: char)
    requires a != [] && !InClass(a[0], cls)
    requires CollapseRuns(a[1..] + b, cls, rep) == CollapseRuns(a[1..], cls, rep) + CollapseRuns(b, cls, rep)
    ensures CollapseRuns(a + b, cls, rep) == CollapseRuns(a, cls, rep) + CollapseRuns(b, cls, rep)
  {
    CollapseOtherAppendHead(a, b, cls, rep);
    CollapseOtherHead(a, cls, rep);
    ConsAppend(a[0], CollapseRuns(a[1..], cls, rep), CollapseRuns(b, cls, rep));
  }

  lemma CollapseOtherAppendHead(a: string, b: string, cls: CharClass, rep: char)
    requires a != [] && !InClass(a[0], cls)
    ensures CollapseRuns(a + b, cls, rep) == [a[0]] + CollapseRuns(a[1..] + b, cls, rep)
  {
    assert (a + b)[1..] == a[1..] + b;
    assert (a + b)[0] == a[0];
    CollapseOtherHead(a + b, cls, rep);
  }

  lemma DropTail(a: string, cls: CharClass)
    requires a != [] && InClass(a[0], cls) && !InClass(a[|a| - 1], cls)
    ensures var d := DropWhile(a, cls); d != [] && |d| < |a| && d[|d| - 1] == a[|a| - 1]
  {
    DropWhileKeepsLast(a, cls);
    DropWhileSuffix(a, cls);
  }

  lemma CollapseClassHead(s: string, cls: CharClass, rep: char)
    requires s != [] && InClass(s[0], cls)
    ensures CollapseRuns(s, cls, rep) == [rep] + CollapseRuns(DropWhile(s, cls), cls, rep)
  {
  }

  lemma CollapseOtherHead(s: string, cls: CharClass, rep: char)
    requires s != [] && !InClass(s[0], cls)
    ensures CollapseRuns(s, cls, rep) == [s[0]] + CollapseRuns(s[1..], cls, rep)
  {
  }

  /** Collapsing keeps every character outside the class ... */
  lemma {:induction false} CollapseKeeps(s: string, cls: CharClass, rep: char, x: char)
    requires x in s && !InClass(x, cls)
    ensures x in CollapseRuns(s, cls, rep)
    decreases |s|
  {
    if InClass(s[0], cls) {
      var d := DropWhile(s, cls);
      DropWhileSuffix(s, cls);
      var k :| 0 <= k < |s| && s[k] == x;
      if k < |s| - |d| {
        DropWhileDropped(s, cls, k);
      }
      assert d[k - (|s| - |d|)] == x;
      CollapseKeeps(d, cls, rep, x);
    } else if x != s[0] {
      var k :| 0 <= k < |s| && s[k] == x;
      assert s[1..][k - 1] == x;
      CollapseKeeps(s[1..], cls, rep, x);
    }
  }

  /** ... and adds no character other than `rep`. */
  lemma {:induction false} CollapseOnly(s: string, cls: CharClass, rep: char, x: char)
    requires x in CollapseRuns(s, cls, rep) && x != rep
    ensures x in s
    decreases |s|
  {
    if InClass(s[0], cls) {
      var d := DropWhile(s, cls);
      CollapseOnly(d, cls, rep, x);
      DropWhileSuffix(s, cls);
      InSuffix(s, d);
    } else if x != s[0] {
      CollapseOnly(s[1..], cls, rep, x);
    }
  }

  /** `trim()` removes whitespace only. */
  lemma TrimKeeps(s: string, x: char)
    requires x in s && !IsSpace(x)
    ensures x in Trim(s)
  {
    var t := TrimStart(s);
    var k :| 0 <= k < |s| && s[k] == x;
    if k < |s| - |t| {
      DropWhileDropped(s, Whitespace, k);
    }
    var j := k - (|s| - |t|);
    assert t[j] == x;
    var r := TrimEnd(t);
    assert j < |r|;
    assert r[j] == x;
  }

  /** A string with a non-space character has at least one word. */
  lemma WordsNonEmpty(s: string, x: char)
    requires x in s && !IsSpace(x)
    ensures Words(s) != []
  {
    var t := TrimStart(s);
    var k :| 0 <= k < |s| && s[k] == x;
    if k < |s| - |t| {
      DropWhileDropped(s, Whitespace, k);
    }
  }

  /** `s.split(/\s+/).filter(Boolean)`: the maximal runs of non-space characters. */
  function Words(s: string): (ws: seq<string>)
    ensures forall i :: 0 <= i < |ws| ==> IsWord(ws[i]) && CharsFrom(ws[i], s)
    decreases |s|
  {
    var t := TrimStart(s);
    if t == [] then []
    else
      var n := RunLength(t, Whitespace);
      var rest := Words(t[n..]);
      WordsFrom(s, t, n, rest);
      [t[..n]] + rest
  }

  lemma WordsFrom(s: string, t: string, n: nat, rest: seq<string>)
    requires |t| <= |s| && t == s[|s| - |t|..] && 0 < n <= |t|
    requires forall i :: 0 <= i < n ==> !InClass(t[i], Whitespace)
    requires forall i :: 0 <= i < |rest| ==> IsWord(rest[i]) && CharsFrom(rest[i], t[n..])
    ensures forall i :: 0 <= i < 1 + |rest| ==> IsWord(([t[..n]] + rest)[i]) && CharsFrom(([t[..n]] + rest)[i], s)
  {
    InSuffix(s, t);
    InPrefix(t, t[..n]);
    InSuffix(t, t[n..]);
  }

  /** A single word splits into itself. */
  lemma WordsSingle(w: string)
    requires IsWord(w)
    ensures Words(w) == [w]
  {
    assert TrimStart(w) == w;
    assert RunLength(w, Whitespace) == |w|;
    assert w[..|w|] == w;
    assert w[|w|..] == [];
    assert Words([]) == [];
  }

  /** ASCII case folding; see README for the Unicode cases this leaves out. */
  function LowerChar(c: char): (d: char)
    ensures 'A' <= c <= 'Z' ==> 'a' <= d <= 'z'
    ensures !('A' <= c <= 'Z') ==> d == c
  {
    if 'A' <= c <= 'Z' then (c as int - 'A' as int + 'a' as int) as char else c
  }

  /** `s.toLowerCase()` restricted to ASCII letters. */
  function ToLower(s: string): (r: string)
    ensures |r| == |s|
    ensures forall i :: 0 <= i < |s| ==> r[i] == LowerChar(s[i])
  {
    if s == [] then [] else [LowerChar(s[0])] + ToLower(s[1..])
  }

  lemma {:induction false} LowerIdempotent(s: string)
    ensures ToLower(ToLower(s)) == ToLower(s)
  {
    if s != [] {
      LowerIdempotent(s[1..]);
    }
  }

  predicate StartsWith(s: string, prefix: string) {
    |prefix| <= |s| && s[..|prefix|] == prefix
  }

  predicate EndsWith(s: string, suffix: string) {
    |suffix| <= |s| && s[|s| - |suffix|..] == suffix
  }

  /** `s.includes(needle)` */
  predicate Contains(s: string, needle: string)
    decreases |s|
  {
    StartsWith(s, needle) || (s != [] && Contains(s[1..], needle))
  }

  lemma {:induction false} ContainsAt(s: string, needle: string, i: nat)
    requires i + |needle| <= |s| && s[i..i + |needle|] == needle
    ensures Contains(s, needle)
  {
    if i > 0 {
      assert s[1..][i - 1..i - 1 + |needle|] == needle;
      ContainsAt(s[1..], needle, i - 1);
    }
  }

  /** `s.indexOf(c)`, with `None` for -1. */
  function IndexOf(s: string, c: char): (r: Option<nat>)
    ensures r.None? <==> c !in s
    ensures r.Some? ==> r.value < |s| && s[r.value] == c && c !in s[..r.value]
  {
    if s == [] then None
    else if s[0] == c then Some(0)
    else match IndexOf(s[1..], c)
      case None => None
      case Some(k) =>
        assert s[..k + 1] == [s[0]] + s[1..][..k];
        Some(k + 1)
  }

  /** The first occurrence is the one `IndexOf` finds. */
  lemma {:induction false} IndexOfAt(s: string, c: char, i: nat)
    requires i < |s| && s[i] == c && c !in s[..i]
    ensures IndexOf(s, c) == Some(i)
  {
    if i > 0 {
      assert s[..i][0] == s[0];
      assert s[1..][..i - 1] == s[1..i];
      assert forall x :: x in s[1..i] ==> x in s[..i];
      IndexOfAt(s[1..], c, i - 1);
    }
  }

  /** `s.split(sep)` for a one-character separator; never empty. */
  function Split(s: string, sep: char): (parts: seq<string>)
    ensures |parts| >= 1
    ensures forall i, j :: 0 <= i < |parts| && 0 <= j < |parts[i]| ==> parts[i][j] != sep
    decreases |s|
  {
    match IndexOf(s, sep)
    case None => [s]
    case Some(k) => [s[..k]] + Split(s[k + 1..], sep)
  }

  /** `parts.join(sep)` */
  function Join(parts: seq<string>, sep: string): string {
    if |parts| == 0 then ""
    else if |parts| == 1 then parts[0]
    else parts[0] + sep + Join(parts[1..], sep)
  }

  /** Every part of a joined string occurs in it. */
  lemma {:induction false} JoinContains(parts: seq<string>, sep: string, i: nat)
    requires i < |parts|
    ensures Contains(Join(parts, sep), parts[i])
  {
    if |parts| == 1 || i == 0 {
      ContainsAt(Join(parts, sep), parts[i], 0);
    } else {
      JoinContains(parts[1..], sep, i - 1);
      ContainsAfter(parts[0] + sep, Join(parts[1..], sep), parts[i]);
    }
  }

  /** What occurs in `b` occurs in `a + b`. */
  lemma {:induction false} ContainsAfter(a: string, b: string, needle: string)
    requires Contains(b, needle)
    ensures Contains(a + b, needle)
    decreases |a|
  {
    if a == [] {
      assert a + b == b;
    } else {
      assert (a + b)[1..] == a[1..] + b;
      ContainsAfter(a[1..], b, needle);
      assert Contains((a + b)[1..], needle);
    }
  }

  /** A joined list of strings starts with its first part. */
  lemma JoinStarts(parts: seq<string>, sep: string)
    requires parts != []
    ensures StartsWith(Join(parts, sep), parts[0])
  {
  }

  function DigitChar(d: nat): char
    requires d < 10
  {
    "0123456789"[d]
  }

  /** Decimal rendering of a non-negative integer, as template literals render it. */
  function NatToString(n: nat): (r: string)
    ensures r != []
    ensures forall i :: 0 <= i < |r| ==> '0' <= r[i] <= '9'
  {
    if n < 10 then [DigitChar(n)] else NatToString(n / 10) + [DigitChar(n % 10)]
  }

  /** `a < b` on strings: characters compared in order, a proper prefix
      first.  JavaScript compares UTF-16 code units; the two orders agree on
      characters of the Basic Multilingual Plane. */
  predicate StrLess(a: string, b: string)
    decreases |a|
  {
    if a == [] then b != []
    else b != [] && (a[0] < b[0] || (a[0] == b[0] && StrLess(a[1..], b[1..])))
  }

  lemma {:induction false} StrLessIrreflexive(a: string)
    ensures !StrLess(a, a)
    decreases |a|
  {
    if a != [] {
      StrLessIrreflexive(a[1..]);
    }
  }

  lemma {:induction false} StrLessTransitive(a: string, b: string, c: string)
    requires StrLess(a, b) && StrLess(b, c)
    ensures StrLess(a, c)
    decreases |a|
  {
    if a != [] && a[0] == b[0] && b[0] == c[0] {
      StrLessTransitive(a[1..], b[1..], c[1..]);
    }
  }

  lemma {:induction false} StrLessTotal(a: string, b: string)
    requires a != b
    ensures StrLess(a, b) || StrLess(b, a)
    decreases |a|
  {
    if a != [] && b != [] && a[0] == b[0] {
      StrLessTotal(a[1..], b[1..]);
    }
  }
}
