/**
 * `getCookie` of index.js: looks a cookie up by name in the request's
 * `Cookie` header (the `cookie-string` of section 5.4 of RFC 6265, pairs
 * separated by `;`), comparing the name exactly.
 */
module Cookies {
  import opened Wrappers
  import opened Strings

  /** `null` (no header), `undefined` (no such cookie), or the cookie's value. */
  datatype CookieLookup = NoCookieHeader | NoSuchCookie | Cookie(value: string)

  /** The text before the first `=` of a trimmed segment. */
  function CookieName(segment: string): string {
    Split(Trim(segment), '=')[0]
  }

  /** Everything after the first `=` of a trimmed segment (`parts.slice(1).join('=')`). */
  function CookieValue(segment: string): string {
    Join(Split(Trim(segment), '=')[1..], '=')
  }

  /** The value of the first segment whose name is `name`. */
  function FirstCookie(segments: seq<string>, name: string): Option<string> {
    if |segments| == 0 then None
    else if CookieName(segments[0]) == name then Some(CookieValue(segments[0]))
    else FirstCookie(segments[1..], name)
  }

  /** Some segment has the name. */
  predicate HasCookie(segments: seq<string>, name: string) {
    exists i :: 0 <= i < |segments| && CookieName(segments[i]) == name
  }

  predicate IsFirstMatch(segments: seq<string>, name: string, i: int) {
    && 0 <= i < |segments|
    && CookieName(segments[i]) == name
    && forall j :: 0 <= j < i ==> CookieName(segments[j]) != name
  }

  /** What `getCookie(req, name)` returns for the request's `Cookie` header. */
  function Lookup(cookieHeader: Option<string>, name: string): CookieLookup {
    if cookieHeader.None? || cookieHeader.value == "" then NoCookieHeader
    else
      var found := FirstCookie(Split(cookieHeader.value, ';'), name);
      if found.Some? then Cookie(found.value) else NoSuchCookie
  }

  method GetCookie(cookieHeader: Option<string>, name: string) returns (r: CookieLookup)
    ensures r == Lookup(cookieHeader, name)
  {
    if cookieHeader.None? || cookieHeader.value == "" {
      return NoCookieHeader;
    }
    var segments := Split(cookieHeader.value, ';');
    var i := 0;
    while i < |segments|
      invariant 0 <= i <= |segments|
      invariant FirstCookie(segments, name) == FirstCookie(segments[i..], name)
    {
      var cookieText := Trim(segments[i]);
      var cookieParts := Split(cookieText, '=');
      assert segments[i..][1..] == segments[i + 1..];
      if cookieParts[0] == name {
        return Cookie(Join(cookieParts[1..], '='));
      }
      i := i + 1;
    }
    return NoSuchCookie;
  }

  /** `FirstCookie` finds a value exactly when some segment has the name. */
  lemma {:induction false} FirstCookieFound(segments: seq<string>, name: string)
    ensures FirstCookie(segments, name).Some? <==>
      exists i :: 0 <= i < |segments| && CookieName(segments[i]) == name
  {
    if |segments| > 0 {
      FirstCookieFound(segments[1..], name);
      if CookieName(segments[0]) != name {
        if exists i :: 0 <= i < |segments| && CookieName(segments[i]) == name {
          var i :| 0 <= i < |segments| && CookieName(segments[i]) == name;
          assert segments[1..][i - 1] == segments[i];
        }
        if FirstCookie(segments, name).Some? {
          var i :| 0 <= i < |segments[1..]| && CookieName(segments[1..][i]) == name;
          assert segments[i + 1] == segments[1..][i];
        }
      }
    }
  }

  /** A value `FirstCookie` finds is that of the FIRST segment with the name. */
  lemma {:induction false} FirstCookieIsFirst(segments: seq<string>, name: string)
    requires FirstCookie(segments, name).Some?
    ensures exists i :: IsFirstMatch(segments, name, i) && FirstCookie(segments, name).value == CookieValue(segments[i])
  {
    if CookieName(segments[0]) != name {
      FirstCookieIsFirst(segments[1..], name);
      var i :| IsFirstMatch(segments[1..], name, i)
        && FirstCookie(segments[1..], name).value == CookieValue(segments[1..][i]);
      assert segments[1..][i] == segments[i + 1];
      forall j | 0 <= j < i + 1
        ensures CookieName(segments[j]) != name
      {
        if j > 0 {
          assert segments[j] == segments[1..][j - 1];
        }
      }
      assert FirstCookie(segments, name) == FirstCookie(segments[1..], name);
      assert IsFirstMatch(segments, name, i + 1)
        && FirstCookie(segments, name).value == CookieValue(segments[i + 1]);
    } else {
      assert IsFirstMatch(segments, name, 0)
        && FirstCookie(segments, name).value == CookieValue(segments[0]);
    }
  }

  /**
   * The three answers of `getCookie`: `null` exactly when there is no (or an
   * empty) header; a value exactly when some segment has the name, and then
   * it is the value of the first such segment; `undefined` otherwise.
   */
  lemma LookupOutcomes(cookieHeader: Option<string>, name: string)
    ensures Lookup(cookieHeader, name) == NoCookieHeader <==> cookieHeader.None? || cookieHeader.value == ""
    ensures cookieHeader.Some? && cookieHeader.value != "" ==>
      (Lookup(cookieHeader, name).Cookie? <==> HasCookie(Split(cookieHeader.value, ';'), name))
    ensures Lookup(cookieHeader, name).Cookie? ==>
      exists i :: IsFirstMatch(Split(cookieHeader.value, ';'), name, i)
        && Lookup(cookieHeader, name).value == CookieValue(Split(cookieHeader.value, ';')[i])
  {
    if cookieHeader.Some? && cookieHeader.value != "" {
      var segments := Split(cookieHeader.value, ';');
      FirstCookieFound(segments, name);
      assert Lookup(cookieHeader, name).Cookie? <==> FirstCookie(segments, name).Some?;
      if FirstCookie(segments, name).Some? {
        FirstCookieIsFirst(segments, name);
        var i :| IsFirstMatch(segments, name, i) && FirstCookie(segments, name).value == CookieValue(segments[i]);
        assert 0 <= i < |segments| && CookieName(segments[i]) == name;
      }
    }
  }

  /**
   * A segment `name=value` with `name` free of `=` has that name and that
   * value, however many `=` the value itself holds.
   */
  lemma CookieSegment(segment: string, name: string, value: string)
    requires Trim(segment) == name + "=" + value
    requires '=' !in name
    ensures CookieName(segment) == name
    ensures CookieValue(segment) == value
  {
    SplitAt(name, value, '=');
    JoinSplit(value, '=');
    assert Split(Trim(segment), '=')[1..] == Split(value, '=');
  }

  /**
   * The header a browser sends back after `Set-Cookie: name=value; …` reads
   * back as `value`, for a name without `=` and a value without `;` that
   * does not end in white space.
   */
  lemma {:induction false} SetCookieReadBack(name: string, value: string)
    requires name != "" && name[0] !in JsWhitespace && '=' !in name && ';' !in name
    requires ';' !in value
    requires value == "" || value[|value| - 1] !in JsWhitespace
    ensures Lookup(Some(name + "=" + value), name) == Cookie(value)
  {
    var header := name + "=" + value;
    assert ';' !in header by {
      assert forall i :: 0 <= i < |header| ==> header[i] == (if i < |name| then name[i] else if i == |name| then '=' else value[i - |name| - 1]);
    }
    SplitNoSep(header, ';');
    assert header[0] == name[0];
    assert header[|header| - 1] == if value == "" then '=' else value[|value| - 1];
    TrimNoSpace(header);
    CookieSegment(header, name, value);
  }
}
