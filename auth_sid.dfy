/**
  * The session middleware: the owner id of a request is the `sid` cookie
  * the browser sent, or a fresh id that a `Set-Cookie` header hands to the
  * browser for 30 days.  `decodeURIComponent`, `encodeURIComponent`,
  * `randomUUID` and the production flag are parameters.
  */
module AuthSid {
  import opened Wrappers
  import opened Text
  import opened Js

  const SessionCookie := "sid"
  const ThirtyDays := 60 * 60 * 24 * 30

  /** The name of a `name=value` part: the text before its first "=", and
      `None` for a part without "=". */
  function KeyOf(part: string): Option<string> {
    match IndexOf(part, '=')
    case None => None
    case Some(eq) => Some(part[..eq])
  }

  /** The value of a part: everything after its first "=". */
  function ValueOf(part: string): string
    requires '=' in part
  {
    part[IndexOf(part, '=').value + 1..]
  }

  /** The raw value of the first part named `name`. */
  function FirstMatch(parts: seq<string>, name: string): Option<string> {
    if parts == [] then None
    else if KeyOf(parts[0]) == Some(name) then Some(ValueOf(parts[0]))
    else FirstMatch(parts[1..], name)
  }

  /** `split(";").map((p) => p.trim())` */
  function CookieParts(header: string): (parts: seq<string>)
    ensures |parts| == |Split(header, ';')|
  {
    var raw := Split(header, ';');
    seq(|raw|, i requires 0 <= i < |raw| => Trim(raw[i]))
  }

  /** `decodeURIComponent`: the decoded text, or the `URIError` it throws. */
  type Decode = string -> Result<string, JsError>

  /** What `cookieValue` returns or throws. */
  function CookieLookup(header: Option<string>, name: string, decode: Decode): Result<Option<string>, JsError> {
    if header.None? || header.value == "" then Success(None)
    else match FirstMatch(CookieParts(header.value), name)
      case None => Success(None)
      case Some(v) =>
        match decode(v)
        case Success(d) => Success(Some(d))
        case Failure(e) => Failure(e)
  }

  /** `cookieValue`: the parts are scanned in order; a part without "=" or
      with another name is skipped, and the first match is decoded. */
  method CookieValue(header: Option<string>, name: string, decode: Decode) returns (r: Result<Option<string>, JsError>)
    ensures r == CookieLookup(header, name, decode)
  {
    if header.None? || header.value == "" {
      return Success(None);
    }
    var parts := CookieParts(header.value);
    var i := 0;
    while i < |parts|
      invariant 0 <= i <= |parts|
      invariant FirstMatch(parts[i..], name) == FirstMatch(parts, name)
    {
      var part := parts[i];
      assert parts[i..][0] == part && parts[i..][1..] == parts[i + 1..];
      var eq := IndexOf(part, '=');
      if eq.Some? && part[..eq.value] == name {
        var decoded := decode(part[eq.value + 1..]);
        if decoded.Success? {
          return Success(Some(decoded.value));
        }
        return Failure(decoded.error);
      }
      i := i + 1;
    }
    assert parts[i..] == [];
    return Success(None);
  }

  /** The first part whose name is exactly `name` gives the value, with every
      "=" after the first kept; with no such part there is no value. */
  lemma {:induction false} FirstMatchResult(parts: seq<string>, name: string)
    ensures FirstMatch(parts, name).None? <==> forall i :: 0 <= i < |parts| ==> KeyOf(parts[i]) != Some(name)
    ensures FirstMatch(parts, name).Some? ==>
      exists i :: 0 <= i < |parts| && KeyOf(parts[i]) == Some(name) && FirstMatch(parts, name) == Some(ValueOf(parts[i]))
                  && forall j :: 0 <= j < i ==> KeyOf(parts[j]) != Some(name)
  {
    if parts != [] && KeyOf(parts[0]) != Some(name) {
      FirstMatchResult(parts[1..], name);
      assert forall i :: 1 <= i < |parts| ==> parts[i] == parts[1..][i - 1];
      if FirstMatch(parts, name).Some? {
        var i :| 0 <= i < |parts[1..]| && KeyOf(parts[1..][i]) == Some(name)
                 && FirstMatch(parts[1..], name) == Some(ValueOf(parts[1..][i]))
                 && forall j :: 0 <= j < i ==> KeyOf(parts[1..][j]) != Some(name);
        assert KeyOf(parts[i + 1]) == Some(name) && FirstMatch(parts, name) == Some(ValueOf(parts[i + 1]));
      }
    } else if parts != [] {
      assert KeyOf(parts[0]) == Some(name) && FirstMatch(parts, name) == Some(ValueOf(parts[0]));
    }
  }

  /** No header, or an empty one, has no cookie of any name. */
  lemma NoHeaderNoCookie(header: Option<string>, name: string, decode: Decode)
    requires header.None? || header == Some("")
    ensures CookieLookup(header, name, decode) == Success(None)
  {
  }

  /** `Math.max(0, Math.floor(n))` */
  function MaxAge(seconds: real): (r: nat)
  {
    if seconds.Floor > 0 then seconds.Floor else 0
  }

  /** The age is the whole number of seconds, and 0 for a negative or
      fractional age below one second. */
  lemma MaxAgeResult(seconds: real)
    ensures seconds >= 0.0 ==> MaxAge(seconds) == seconds.Floor
    ensures seconds < 1.0 ==> MaxAge(seconds) == 0
    ensures MaxAge(seconds) as real <= if seconds < 0.0 then 0.0 else seconds
  {
  }

  /** The attributes `setCookie` pushes, in order. */
  function CookieAttributes(name: string, value: string, encode: string -> string, maxAgeSeconds: real, isProd: bool): seq<string> {
    [name + "=" + encode(value), "Path=/", "HttpOnly", "SameSite=Lax", "Max-Age=" + NatToString(MaxAge(maxAgeSeconds))]
    + (if isProd then ["Secure"] else [])
  }

  /** The `Set-Cookie` header `setCookie` writes. */
  function SetCookieHeader(name: string, value: string, encode: string -> string, maxAgeSeconds: real, isProd: bool): string {
    Join(CookieAttributes(name, value, encode, maxAgeSeconds, isProd), "; ")
  }

  /** Joining a list of at least two parts. */
  lemma JoinCons(a: string, rest: seq<string>, sep: string)
    requires rest != []
    ensures Join([a] + rest, sep) == a + sep + Join(rest, sep)
  {
    assert ([a] + rest)[1..] == rest;
  }

  /** Joining four parts before a tail of one or two parts. */
  lemma JoinFour(a: string, b: string, c: string, d: string, tail: seq<string>, sep: string)
    requires tail != []
    ensures Join([a, b, c, d] + tail, sep) == a + sep + b + sep + c + sep + d + sep + Join(tail, sep)
  {
    JoinCons(d, tail, sep);
    JoinCons(c, [d] + tail, sep);
    JoinCons(b, [c] + ([d] + tail), sep);
    JoinCons(a, [b] + ([c] + ([d] + tail)), sep);
    assert [a, b, c, d] + tail == [a] + ([b] + ([c] + ([d] + tail)));
  }

  /** The header is the encoded pair, then the path, `HttpOnly`, `SameSite`
      and the age in whole non-negative seconds, then "Secure" exactly in
      production, separated by "; ". */
  lemma SetCookieHeaderResult(name: string, value: string, encode: string -> string, maxAgeSeconds: real, isProd: bool)
    ensures var age := "Max-Age=" + NatToString(MaxAge(maxAgeSeconds));
      SetCookieHeader(name, value, encode, maxAgeSeconds, isProd)
      == name + "=" + encode(value) + "; " + "Path=/" + "; " + "HttpOnly" + "; " + "SameSite=Lax" + "; " + age
         + (if isProd then "; " + "Secure" else "")
  {
    var pair := name + "=" + encode(value);
    var age := "Max-Age=" + NatToString(MaxAge(maxAgeSeconds));
    var tail := if isProd then [age, "Secure"] else [age];
    assert CookieAttributes(name, value, encode, maxAgeSeconds, isProd) == [pair, "Path=/", "HttpOnly", "SameSite=Lax"] + tail;
    JoinFour(pair, "Path=/", "HttpOnly", "SameSite=Lax", tail, "; ");
    if isProd {
      JoinCons(age, ["Secure"], "; ");
      assert Join(tail, "; ") == age + ("; " + "Secure");
    }
  }

  /** The first ";"-separated piece of `a + rest` is `a` when `a` has no ";"
      and `rest` is empty or starts with one. */
  lemma SplitFirst(a: string, rest: string, sep: char)
    requires sep !in a
    requires rest == [] || rest[0] == sep
    ensures Split(a + rest, sep)[0] == a
  {
    var h := a + rest;
    if rest == [] {
      assert h == a;
    } else {
      assert h[|a|] == sep && h[..|a|] == a;
      IndexOfAt(h, sep, |a|);
    }
  }

  /** A part `key=value` with no "=" in the key. */
  lemma KeyValueOf(key: string, value: string)
    requires '=' !in key
    ensures KeyOf(key + "=" + value) == Some(key)
    ensures '=' in key + "=" + value && ValueOf(key + "=" + value) == value
  {
    var part := key + "=" + value;
    assert part[|key|] == '=' && part[..|key|] == key;
    IndexOfAt(part, '=', |key|);
  }

  /** The header a browser sends back for the session cookie: the pair
      first, then anything after a ";". */
  lemma CookieRoundTrip(value: string, encode: string -> string, decode: Decode, rest: string)
    requires forall i :: 0 <= i < |encode(value)| ==> encode(value)[i] != ';' && !IsSpace(encode(value)[i])
    requires decode(encode(value)) == Success(value)
    requires rest == [] || rest[0] == ';'
    ensures CookieLookup(Some(SessionCookie + "=" + encode(value) + rest), SessionCookie, decode) == Success(Some(value))
  {
    var e := encode(value);
    var pair := SessionCookie + "=" + e;
    assert forall i :: 0 <= i < |pair| ==> pair[i] != ';' && (i > 0 ==> !IsSpace(pair[i])) by {
      forall i | 0 <= i < |pair| ensures pair[i] != ';' && (i > 0 ==> !IsSpace(pair[i])) {
        if i >= 4 { assert pair[i] == e[i - 4]; }
      }
    }
    SplitFirst(pair, rest, ';');
    TrimUnchanged(pair);
    assert CookieParts(pair + rest)[0] == pair;
    KeyValueOf(SessionCookie, e);
  }

  /** `getOrSetOwnerId`: the owner id, and the `Set-Cookie` header written
      when the id is new; a cookie value that fails to decode throws. */
  function GetOrSetOwnerId(cookieHeader: Option<string>, decode: Decode, encode: string -> string,
                           freshSid: string, isProd: bool): Result<(string, Option<string>), JsError> {
    match CookieLookup(cookieHeader, SessionCookie, decode)
    case Failure(e) => Failure(e)
    case Success(existing) =>
      if existing.Some? && existing.value != "" then Success((existing.value, None))
      else Success((freshSid, Some(SetCookieHeader(SessionCookie, freshSid, encode, ThirtyDays as real, isProd))))
  }

  /** A non-empty session cookie is the owner id and no cookie is set;
      otherwise the fresh id is the owner and the session cookie is set to
      it for 30 days. */
  lemma GetOrSetOwnerIdResult(cookieHeader: Option<string>, decode: Decode, encode: string -> string,
                              freshSid: string, isProd: bool)
    ensures var r := GetOrSetOwnerId(cookieHeader, decode, encode, freshSid, isProd);
      var found := CookieLookup(cookieHeader, SessionCookie, decode);
      && (r.Failure? <==> found.Failure?)
      && (found.Success? && found.value.Some? && found.value.value != "" ==> r == Success((found.value.value, None)))
      && (found.Success? && (found.value.None? || found.value.value == "") ==>
            r == Success((freshSid, Some(SetCookieHeader(SessionCookie, freshSid, encode, 2592000.0, isProd)))))
    ensures MaxAge(ThirtyDays as real) == 2592000
  {
  }

  /** A browser that returns the cookie it was given is recognised as the
      same owner, without a new cookie. */
  lemma SessionIsRemembered(decode: Decode, encode: string -> string, freshSid: string, isProd: bool)
    requires freshSid != ""
    requires forall i :: 0 <= i < |encode(freshSid)| ==> encode(freshSid)[i] != ';' && !IsSpace(encode(freshSid)[i])
    requires decode(encode(freshSid)) == Success(freshSid)
    ensures var first := GetOrSetOwnerId(None, decode, encode, freshSid, isProd);
      first.Success? && first.value.1.Some?
      && GetOrSetOwnerId(Some(SessionCookie + "=" + encode(freshSid)), decode, encode, "other", isProd)
         == Success((first.value.0, None))
  {
    CookieRoundTrip(freshSid, encode, decode, "");
    assert SessionCookie + "=" + encode(freshSid) + "" == SessionCookie + "=" + encode(freshSid);
  }
}
