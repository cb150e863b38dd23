/**
 * IndieAuth discovery as indieauth.js does it: canonicalise the user's URL,
 * `HEAD` it, parse its `Link` header (a simplified form of section 3 of
 * RFC 8288: `,`-separated links, each `<target>; rel=value`), and fetch the
 * metadata the first `indieauth-metadata` link points to. The login itself
 * is a stub that always refuses.
 */
module IndieAuth {
  import opened Wrappers
  import opened Strings
  import opened Json
  import opened Http
  import opened Records

  const MetadataRel: string := "indieauth-metadata"

  // ---------------------------------------------------------------------
  // Canonical URL

  /** `https://` + host + path, with one `/` appended unless it already ends in `/`. */
  function CanonicalUrl(hostname: string, pathname: string): (url: string)
    ensures EndsWith(url, "/")
    ensures var base := "https://" + hostname + pathname;
      && StartsWith(url, base)
      && (EndsWith(base, "/") ==> url == base)
      && (!EndsWith(base, "/") ==> url == base + "/")
  {
    var base := "https://" + hostname + pathname;
    if EndsWith(base, "/") then base else base + "/"
  }

  // ---------------------------------------------------------------------
  // Link headers

  /** `parseLink`: the target with every `"`, `'`, `<` and `>` removed. */
  function ParseLink(linkText: string): (link: string)
    ensures '"' !in link && '\'' !in link && '<' !in link && '>' !in link
    ensures forall c :: c !in {'"', '\'', '<', '>'} ==> (c in link <==> c in linkText)
  {
    RemoveChar(RemoveChar(RemoveChar(RemoveChar(linkText, '"'), '\''), '<'), '>')
  }

  /** A target written `<url>`, with no quote or angle bracket of its own, gives back `url`. */
  lemma ParseLinkOf(url: string)
    requires '"' !in url && '\'' !in url && '<' !in url && '>' !in url
    ensures ParseLink("<" + url + ">") == url
  {
    var text := "<" + url + ">";
    var tail := url + ">";
    assert text == "<" + tail;
    RemoveCharAbsent(text, '"');
    RemoveCharAbsent(text, '\'');
    RemoveCharAppend("<", tail, '<');
    RemoveCharAbsent(tail, '<');
    assert RemoveChar("<", '<') == "";
    assert RemoveChar(text, '<') == tail;
    RemoveCharAppend(url, ">", '>');
    RemoveCharAbsent(url, '>');
    assert RemoveChar(">", '>') == "";
    assert RemoveChar(tail, '>') == url;
  }

  /** Parsing a link twice is parsing it once. */
  lemma ParseLinkIdempotent(linkText: string)
    ensures ParseLink(ParseLink(linkText)) == ParseLink(linkText)
  {
    var link := ParseLink(linkText);
    RemoveCharAbsent(link, '"');
    RemoveCharAbsent(link, '\'');
    RemoveCharAbsent(link, '<');
    RemoveCharAbsent(link, '>');
  }

  /**
   * `parseRel`: the text between the first and second `=` of the rel field,
   * with both quote characters removed. `relText` is `None` when the link
   * has no `;` field; that, and a field without `=`, throw.
   */
  function ParseRel(relText: Option<string>): (r: Result<string>)
    ensures r.Err? <==> relText.None? || '=' !in relText.value
    ensures r.Err? ==> r.message == UndefinedPropertyError
    ensures r.Ok? ==> '"' !in r.value && '\'' !in r.value
  {
    if relText.None? then Err(UndefinedPropertyError)
    else
      var parts := Split(relText.value, '=');
      SplitCount(relText.value, '=');
      CountZero(relText.value, '=');
      if |parts| < 2 then Err(UndefinedPropertyError)
      else Ok(RemoveChar(RemoveChar(parts[1], '\''), '"'))
  }

  /**
   * A rel field `name=text`, possibly followed by a second `=` and more,
   * gives `text` without its quotes: only the part between the first and
   * second `=` counts.
   */
  lemma ParseRelSplit(name: string, text: string, rest: string)
    requires '=' !in name && '=' !in text
    requires rest == "" || rest[0] == '='
    ensures ParseRel(Some(name + "=" + text + rest)) == Ok(RemoveChar(RemoveChar(text, '\''), '"'))
  {
    SecondField(name, text, rest);
  }

  /** The second `=`-separated part of `name=text` followed by nothing or by `=...` is `text`. */
  lemma SecondField(name: string, text: string, rest: string)
    requires '=' !in name && '=' !in text
    requires rest == "" || rest[0] == '='
    ensures var parts := Split(name + "=" + text + rest, '=');
      |parts| >= 2 && parts[1] == text
  {
    if rest == "" {
      SplitNoSep(text, '=');
      SplitAt(name, text, '=');
      assert name + "=" + text + rest == name + ['='] + text;
    } else {
      var tail := rest[1..];
      assert rest == ['='] + tail;
      SplitAt(text, tail, '=');
      SplitAt(name, text + ['='] + tail, '=');
      assert name + "=" + text + rest == name + ['='] + (text + ['='] + tail);
    }
  }


  /** `rel="value"` (or with single quotes, or none) gives `value`, when it has no `=` or quote of its own. */
  lemma ParseRelOf(name: string, value: string, quote: string)
    requires '=' !in name && '=' !in value && '"' !in value && '\'' !in value
    requires quote in {"", "\"", "'"}
    ensures ParseRel(Some(name + "=" + quote + value + quote)) == Ok(value)
  {
    var quoted := quote + value + quote;
    assert '=' !in quote;
    assert '=' !in quoted;
    assert name + "=" + quote + value + quote == name + "=" + quoted + "";
    ParseRelSplit(name, quoted, "");
    StripQuotes(value, quote);
  }

  /** Removing both quote characters from `value` between two equal quotes gives `value` back. */
  lemma StripQuotes(value: string, quote: string)
    requires '"' !in value && '\'' !in value
    requires quote in {"", "\"", "'"}
    ensures RemoveChar(RemoveChar(quote + value + quote, '\''), '"') == value
  {
    RemoveCharAbsent(value, '\'');
    RemoveCharAbsent(value, '"');
    if quote == "\"" {
      assert quote + value + quote == ['"'] + (value + ['"']);
      RemoveCharAbsent(quote + value + quote, '\'');
      RemoveCharDropLast(value, '"');
    } else if quote == "'" {
      assert quote + value + quote == ['\''] + (value + ['\'']);
      assert RemoveChar(quote + value + quote, '\'') == RemoveChar(value + ['\''], '\'');
      RemoveCharDropLast(value, '\'');
    } else {
      assert quote + value + quote == value;
    }
  }

  /** Removing `c` from a string ending in `c` drops that last character too. */
  lemma {:induction false} RemoveCharDropLast(s: string, c: char)
    ensures RemoveChar(s + [c], c) == RemoveChar(s, c)
  {
    if |s| == 0 {
      assert s + [c] == [c];
      assert ([c])[1..] == [];
    } else {
      assert (s + [c])[0] == s[0];
      assert (s + [c])[1..] == s[1..] + [c];
      RemoveCharDropLast(s[1..], c);
    }
  }

  /** One parsed link: its target and its rel. */
  datatype LinkHeader = LinkHeader(link: string, rel: string)

  /** Every part trimmed: `.map(p => p.trim())`. */
  function TrimAll(parts: seq<string>): (trimmed: seq<string>)
    ensures |trimmed| == |parts|
    ensures forall i :: 0 <= i < |parts| ==> trimmed[i] == Trim(parts[i])
  {
    seq(|parts|, i requires 0 <= i < |parts| => Trim(parts[i]))
  }

  /** One segment: only its first two `;`-fields, trimmed, are read: the target and the rel. */
  function ParseSegment(segment: string): Result<LinkHeader> {
    var fields := TrimAll(Split(segment, ';'));
    var rel := ParseRel(if |fields| >= 2 then Some(fields[1]) else None);
    if rel.Err? then Err(rel.message) else Ok(LinkHeader(ParseLink(fields[0]), rel.value))
  }

  /** Each segment parsed with `parse`, in order; the first failure is the result. */
  function ParseAll(segments: seq<string>, parse: string -> Result<LinkHeader>): Result<seq<LinkHeader>>
    decreases |segments|
  {
    if |segments| == 0 then Ok([])
    else
      match ParseAll(segments[..|segments| - 1], parse)
      case Err(m) => Err(m)
      case Ok(headers) =>
        match parse(segments[|segments| - 1])
        case Err(m) => Err(m)
        case Ok(h) => Ok(headers + [h])
  }

  /** The segments parsed in order; the first failure is the result. */
  function ParseSegments(segments: seq<string>): Result<seq<LinkHeader>> {
    ParseAll(segments, ParseSegment)
  }

  /** `parseLinkHeaders`: `headerText` is the `Link` header, `None` when absent (`null`). */
  function LinkHeaders(headerText: Option<string>): Result<seq<LinkHeader>> {
    if headerText.None? then Err(NullPropertyError)
    else ParseSegments(TrimAll(Split(headerText.value, ',')))
  }

  /** A failure among the first `i` segments is the failure of all of them. */
  lemma {:induction false} ParseSegmentsErrPrefix(segments: seq<string>, i: nat)
    requires i <= |segments| && ParseSegments(segments[..i]).Err?
    ensures ParseSegments(segments) == ParseSegments(segments[..i])
    decreases |segments| - i
  {
    if i < |segments| {
      ParseSegmentsStep(segments, i);
      ParseSegmentsErrPrefix(segments, i + 1);
    } else {
      assert segments[..i] == segments;
    }
  }

  /** The first `i + 1` segments parse as the first `i`, then segment `i`. */
  lemma ParseSegmentsStep(segments: seq<string>, i: nat)
    requires i < |segments|
    ensures ParseSegments(segments[..i + 1])
      == match ParseSegments(segments[..i])
         case Err(m) => Err(m)
         case Ok(headers) =>
           match ParseSegment(segments[i])
           case Err(m) => Err(m)
           case Ok(h) => Ok(headers + [h])
  {
    assert segments[..i + 1][..i] == segments[..i];
    assert segments[..i + 1][i] == segments[i];
  }

  method ParseLinkHeaders(headerText: Option<string>) returns (r: Result<seq<LinkHeader>>)
    ensures r == LinkHeaders(headerText)
  {
    if headerText.None? {
      return Err(NullPropertyError);
    }
    var segments := TrimAll(Split(headerText.value, ','));
    var headers: seq<LinkHeader> := [];
    var i := 0;
    while i < |segments|
      invariant 0 <= i <= |segments|
      invariant ParseSegments(segments[..i]) == Ok(headers)
    {
      var h := ParseSegment(segments[i]);
      ParseSegmentsStep(segments, i);
      if h.Err? {
        ParseSegmentsErrPrefix(segments, i + 1);
        return Err(h.message);
      }
      headers := headers + [h.value];
      i := i + 1;
    }
    assert segments[..i] == segments;
    r := Ok(headers);
  }

  /** Parsing succeeds exactly when every segment does, and then yields one entry per segment, in order. */
  lemma {:induction false} ParseAllInOrder(segments: seq<string>, parse: string -> Result<LinkHeader>)
    ensures ParseAll(segments, parse).Ok? <==> forall i :: 0 <= i < |segments| ==> parse(segments[i]).Ok?
    ensures ParseAll(segments, parse).Ok? ==>
      && |ParseAll(segments, parse).value| == |segments|
      && forall i :: 0 <= i < |segments| ==> ParseAll(segments, parse).value[i] == parse(segments[i]).value
    decreases |segments|
  {
    if |segments| > 0 {
      var init := segments[..|segments| - 1];
      ParseAllInOrder(init, parse);
      assert forall i :: 0 <= i < |init| ==> init[i] == segments[i];
    }
  }

  /** `parseLinkHeaders` keeps one entry per segment, in input order, or fails as soon as one segment does. */
  lemma ParseSegmentsInOrder(segments: seq<string>)
    ensures ParseSegments(segments).Ok? <==> forall i :: 0 <= i < |segments| ==> ParseSegment(segments[i]).Ok?
    ensures ParseSegments(segments).Ok? ==>
      && |ParseSegments(segments).value| == |segments|
      && forall i :: 0 <= i < |segments| ==> ParseSegments(segments).value[i] == ParseSegment(segments[i]).value
  {
    ParseAllInOrder(segments, ParseSegment);
  }


  /** Fields after the second `;` are ignored. */
  lemma SegmentIgnoresExtra(link: string, rel: string, extra: string)
    requires ';' !in link && ';' !in rel
    ensures ParseSegment(link + ";" + rel + ";" + extra) == ParseSegment(link + ";" + rel)
  {
    SplitNoSep(rel, ';');
    SplitAt(rel, extra, ';');
    SplitAt(link, rel + ";" + extra, ';');
    SplitAt(link, rel, ';');
    assert link + ";" + rel + ";" + extra == link + [';'] + (rel + [';'] + extra);
    assert link + ";" + rel == link + [';'] + rel;
  }

  /** A segment with no `;` has no rel field and fails. */
  lemma SegmentWithoutRel(segment: string)
    requires ';' !in segment
    ensures ParseSegment(segment) == Err(UndefinedPropertyError)
  {
    SplitNoSep(segment, ';');
  }

  // ---------------------------------------------------------------------
  // Server lookup

  /** The link of the first entry whose rel is `rel`. */
  function FirstLink(headers: seq<LinkHeader>, rel: string): Option<string> {
    if |headers| == 0 then None
    else if headers[0].rel == rel then Some(headers[0].link)
    else FirstLink(headers[1..], rel)
  }

  /**
   * `lookupIndieAuthServer`: `linkHeader` is the `HEAD` response's `Link`
   * header; `metadataOk` and `metadata` are the metadata fetch's `ok` flag
   * and JSON. The result is the metadata, or `null`.
   */
  function LookupServerResult(hostname: string, pathname: string, linkHeader: Option<string>,
                              metadataOk: bool, metadata: Json): (Result<Json>, seq<Fetch>)
  {
    var head := [Head(CanonicalUrl(hostname, pathname))];
    match LinkHeaders(linkHeader)
    case Err(m) => (Err(m), head)
    case Ok(headers) =>
      var link := FirstLink(headers, MetadataRel);
      if link.None? || link.value == "" then (Ok(JNull), head)
      else (Ok(if metadataOk then metadata else JNull), head + [Get(link.value)])
  }

  method LookupIndieAuthServer(hostname: string, pathname: string, linkHeader: Option<string>,
                               metadataOk: bool, metadata: Json)
    returns (r: Result<Json>, calls: seq<Fetch>)
    ensures (r, calls) == LookupServerResult(hostname, pathname, linkHeader, metadataOk, metadata)
  {
    var canonUrl := CanonicalUrl(hostname, pathname);
    calls := [Head(canonUrl)];
    var linkHeaders := ParseLinkHeaders(linkHeader);
    if linkHeaders.Err? {
      return Err(linkHeaders.message), calls;
    }
    var headers := linkHeaders.value;
    var link: Option<string> := None;
    var i := 0;
    while i < |headers|
      invariant 0 <= i <= |headers|
      invariant FirstLink(headers, MetadataRel) == FirstLink(headers[i..], MetadataRel)
      invariant link.None?
    {
      assert headers[i..][0] == headers[i] && headers[i..][1..] == headers[i + 1..];
      if headers[i].rel == MetadataRel {
        link := Some(headers[i].link);
        break;
      }
      i := i + 1;
    }
    assert link == FirstLink(headers, MetadataRel);
    if link.None? || link.value == "" {
      return Ok(JNull), calls;
    }
    calls := calls + [Get(link.value)];
    r := Ok(if metadataOk then metadata else JNull);
  }

  /** Without an `indieauth-metadata` entry the result is `null` and only the `HEAD` happens. */
  lemma {:induction false} LookupWithoutMetadataLink(hostname: string, pathname: string, linkHeader: Option<string>,
                                                     metadataOk: bool, metadata: Json)
    requires LinkHeaders(linkHeader).Ok?
    requires var headers := LinkHeaders(linkHeader).value;
      forall i :: 0 <= i < |headers| ==> headers[i].rel != MetadataRel
    ensures LookupServerResult(hostname, pathname, linkHeader, metadataOk, metadata)
      == (Ok(JNull), [Head(CanonicalUrl(hostname, pathname))])
  {
    FirstLinkNone(LinkHeaders(linkHeader).value, MetadataRel);
  }

  /** The first matching entry's link is the one fetched, whatever entries follow. */
  lemma LookupUsesFirstLink(hostname: string, pathname: string, linkHeader: Option<string>,
                            metadataOk: bool, metadata: Json, i: nat)
    requires LinkHeaders(linkHeader).Ok?
    requires var headers := LinkHeaders(linkHeader).value;
      && i < |headers| && headers[i].rel == MetadataRel && headers[i].link != ""
      && forall j :: 0 <= j < i ==> headers[j].rel != MetadataRel
    ensures LookupServerResult(hostname, pathname, linkHeader, metadataOk, metadata)
      == (Ok(if metadataOk then metadata else JNull),
          [Head(CanonicalUrl(hostname, pathname)), Get(LinkHeaders(linkHeader).value[i].link)])
  {
    var headers := LinkHeaders(linkHeader).value;
    FirstLinkAt(headers, MetadataRel, i);
    assert FirstLink(headers, MetadataRel) == Some(headers[i].link);
    var head := [Head(CanonicalUrl(hostname, pathname))];
    assert LookupServerResult(hostname, pathname, linkHeader, metadataOk, metadata)
      == (Ok(if metadataOk then metadata else JNull), head + [Get(headers[i].link)]);
    assert head + [Get(headers[i].link)] == [Head(CanonicalUrl(hostname, pathname)), Get(headers[i].link)];
  }

  lemma {:induction false} FirstLinkNone(headers: seq<LinkHeader>, rel: string)
    requires forall i :: 0 <= i < |headers| ==> headers[i].rel != rel
    ensures FirstLink(headers, rel) == None
  {
    if |headers| > 0 {
      FirstLinkNone(headers[1..], rel);
    }
  }

  lemma {:induction false} FirstLinkAt(headers: seq<LinkHeader>, rel: string, i: nat)
    requires i < |headers| && headers[i].rel == rel
    requires forall j :: 0 <= j < i ==> headers[j].rel != rel
    ensures FirstLink(headers, rel) == Some(headers[i].link)
  {
    if i > 0 {
      FirstLinkAt(headers[1..], rel, i - 1);
    }
  }

  // ---------------------------------------------------------------------
  // Login

  /** `indieAuthLogin`: not supported yet. */
  function LoginStep(store: map<string, Value>, query: Query, pathPrefix: string): Step {
    Step(Reply(Plain(400, "IndieAuth not yet supported")), [], store)
  }

  /** Whatever the request, the login answers 400, calls nothing and leaves the store alone. */
  lemma LoginRefuses(store: map<string, Value>, query: Query, pathPrefix: string)
    ensures var r := LoginStep(store, query, pathPrefix);
      r.outcome.Reply? && r.outcome.response.status == 400 && r.calls == [] && r.store == store
  {
  }
}
