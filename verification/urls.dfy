/** `net/url.Parse` and `URL.String()` at the level the gateway uses them:
    a URL is the text before its query (scheme, authority and path as one
    string), the raw query, and the fragment.  Go lowercases the scheme and
    prints the path and fragment re-escaped; here both are kept as given. */
module Urls {
  import opened Wrappers
  import opened Strs
  import opened Errors
  import Query

  datatype Url = Url(head: string, forceQuery: bool, rawQuery: string, fragment: string)

  /** What `Parse` leaves in `head`: no `#`, no `?`, no control character,
      and no empty scheme. */
  ghost predicate Canonical(u: Url) {
    && '#' !in u.head && '?' !in u.head && !HasControl(u.head)
    && !(|u.head| > 0 && u.head[0] == ':')
    && '#' !in u.rawQuery && !HasControl(u.rawQuery)
  }

  function ParseError(u: string, reason: string): Error {
    External("parse \"" + u + "\": " + reason)
  }

  /** `url.Parse`: the fragment is cut off at the first `#`; the rest fails on
      a control character or a leading `:`; a single trailing `?` sets
      `ForceQuery`; otherwise the query starts after the first `?`. */
  function ParseUrl(raw: string): (r: Result<Url, Error>)
    ensures var u := CutAt(raw, '#').before;
      r.Success? <==> !HasControl(u) && !(|u| > 0 && u[0] == ':')
    ensures r.Success? ==> Canonical(r.value) && r.value.fragment == CutAt(raw, '#').after
    ensures r.Failure? ==> r.error.External?
  {
    var f := CutAt(raw, '#');
    var u := f.before;
    if HasControl(u) then Failure(ParseError(u, "net/url: invalid control character in URL"))
    else if |u| > 0 && u[0] == ':' then Failure(ParseError(u, "missing protocol scheme"))
    else
      var q := CutAt(u, '?');
      CutAtParts(raw, '#');
      CutAtParts(u, '?');
      assert |q.before| > 0 ==> q.before[0] == u[0];
      if q.found && q.after == "" then Success(Url(q.before, true, "", f.after))
      else Success(Url(q.before, false, q.after, f.after))
  }

  /** `URL.String()`. */
  function UrlText(u: Url): string {
    u.head
    + (if u.forceQuery || u.rawQuery != "" then "?" + u.rawQuery else "")
    + (if u.fragment != "" then "#" + u.fragment else "")
  }

  /** `URL.Query()`. */
  function UrlQuery(u: Url): (v: Query.Values)
    ensures Query.Valid(v)
  {
    Query.ParseQuery(u.rawQuery)
  }

  /** The URL with its query replaced by the encoding of `v`, as
      `u.RawQuery = v.Encode()` does. */
  function WithQuery(u: Url, v: Query.Values): Url {
    u.(rawQuery := Query.Encode(v))
  }

  /** The text of a URL with a non-empty query, cut at its first `#`. */
  lemma FragmentCutOfQueryUrl(u: Url, q: string)
    requires '#' !in u.head && '#' !in q && q != ""
    ensures CutAt(UrlText(u.(rawQuery := q)), '#') == Cut(u.head + "?" + q, u.fragment, u.fragment != "")
  {
    var text := UrlText(u.(rawQuery := q));
    var body := u.head + "?" + q;
    if u.fragment != "" {
      assert text == body + "#" + u.fragment;
      CutAtFirst(body, u.fragment, '#');
    } else {
      assert text == body;
    }
  }

  /** Parsing the text of a parsed URL whose query was replaced by a
      non-empty query without `#` or control characters gives back the
      same head, that query and the same fragment. */
  lemma ParseTextWithQuery(u: Url, q: string)
    requires Canonical(u)
    requires q != "" && '#' !in q && !HasControl(q)
    ensures ParseUrl(UrlText(u.(rawQuery := q))) == Success(Url(u.head, false, q, u.fragment))
  {
    var body := u.head + "?" + q;
    FragmentCutOfQueryUrl(u, q);
    assert !HasControl(body);
    assert |body| > 0 && body[0] != ':';
    CutAtFirst(u.head, q, '?');
  }

  /** Printing a URL in the form `Parse` produces and parsing the text
      again gives the same URL. */
  lemma ParseUrlText(u: Url)
    requires Canonical(u) && !(u.forceQuery && u.rawQuery != "")
    ensures ParseUrl(UrlText(u)) == Success(u)
  {
    if u.rawQuery != "" {
      ParseTextWithQuery(u, u.rawQuery);
      assert u.(rawQuery := u.rawQuery) == u;
    } else {
      ParseTextWithoutQuery(u);
    }
  }

  /** `ParseUrlText` for a URL without a query. */
  lemma ParseTextWithoutQuery(u: Url)
    requires Canonical(u) && u.rawQuery == ""
    ensures ParseUrl(UrlText(u)) == Success(u)
  {
    if u.forceQuery {
      var body := u.head + ['?'] + "";
      assert UrlText(u) == body + (if u.fragment != "" then "#" + u.fragment else "");
      FragmentCut(body, u.fragment);
      NoControlInConcat(u.head, "?");
      CutAtFirst(u.head, "", '?');
      ParseOfBody(UrlText(u), body);
    } else {
      assert UrlText(u) == u.head + (if u.fragment != "" then "#" + u.fragment else "");
      FragmentCut(u.head, u.fragment);
      ParseOfBody(UrlText(u), u.head);
    }
  }

  /** `ParseUrl` of a text whose part before `#` is `body`, a part that
      passes the checks. */
  lemma ParseOfBody(raw: string, body: string)
    requires CutAt(raw, '#').before == body
    requires !HasControl(body) && !(|body| > 0 && body[0] == ':')
    ensures var q := CutAt(body, '?');
      ParseUrl(raw) == Success(Url(q.before, q.found && q.after == "", q.after, CutAt(raw, '#').after))
  {
  }

  /** Cutting the text before a fragment gives back the text and the fragment. */
  lemma FragmentCut(body: string, fragment: string)
    requires '#' !in body
    ensures CutAt(body + (if fragment != "" then "#" + fragment else ""), '#') == Cut(body, fragment, fragment != "")
  {
    var text := body + (if fragment != "" then "#" + fragment else "");
    if fragment != "" {
      assert text == body + ['#'] + fragment;
      CutAtFirst(body, fragment, '#');
    } else {
      assert text == body;
    }
  }

  /** Re-parsing a URL after `RawQuery = v.Encode()` yields exactly `v` as
      its query, for every non-empty map. */
  lemma ParseWithQuery(u: Url, v: Query.Values)
    requires Canonical(u) && Query.Valid(v) && v != []
    ensures var r := ParseUrl(UrlText(WithQuery(u, v)));
      r.Success? && r.value.head == u.head && r.value.fragment == u.fragment && UrlQuery(r.value) == v
  {
    Query.EncodeNonEmpty(v);
    Query.EncodedHasNoDelimiters(Query.Flatten(v));
    ParseTextWithQuery(u, Query.Encode(v));
    Query.ParseEncode(v);
  }
}
