/** The URL field: the pattern
    `^(https?:\/\/)?([\w-]+\.)+[\w-]+(\/[\w-._~:/?#[\]@!$&'()*+,;=]*)?$` (case
    insensitive) as a recogniser, the "https://" normalisation, and the rules
    for reporting the value and starting a preview. `new URL` is an input
    (`parses`), and the preview request is returned rather than sent. */
module InfoUrlField {
  import opened Prelude
  import opened Constants
  import opened Utils

  /** `[\w-]`. */
  predicate IsLabelChar(c: char) { IsWordChar(c) || c == '-' }

  /** The path class `[\w-._~:/?#[\]@!$&'()*+,;=]`. */
  predicate IsPathChar(c: char)
  {
    IsWordChar(c) || c == '-' || c == '.' || c == '~' || c == ':' || c == '/' || c == '?' ||
    c == '#' || c == '[' || c == ']' || c == '@' || c == '!' || c == '$' || c == '&' ||
    c == '\'' || c == '(' || c == ')' || c == '*' || c == '+' || c == ',' || c == ';' || c == '='
  }

  /** `[\w-]+`. */
  predicate IsLabel(s: string) { s != [] && AllChars(s, IsLabelChar) }

  predicate IsHostChar(c: char) { IsLabelChar(c) || c == '.' }

  /** `([\w-]+\.)+[\w-]+`: labels separated by single dots, at least two of
      them. */
  predicate IsHostName(h: string)
  {
    AllChars(h, IsHostChar) && '.' in h && h[0] != '.' && h[|h| - 1] != '.' &&
    forall i :: 0 <= i < |h| - 1 ==> !(h[i] == '.' && h[i + 1] == '.')
  }

  /** Two labels joined by a dot form a host name. */
  lemma TwoLabels(a: string, b: string)
    requires IsLabel(a) && IsLabel(b)
    ensures IsHostName(a + "." + b)
  {
    var h := a + "." + b;
    assert h[|a|] == '.';
    forall i | 0 <= i < |h| ensures IsHostChar(h[i]) {
      if i < |a| { assert h[i] == a[i]; } else if i > |a| { assert h[i] == b[i - |a| - 1]; }
    }
    forall i | 0 <= i < |h| - 1 ensures !(h[i] == '.' && h[i + 1] == '.') {
      if i < |a| { assert h[i] == a[i]; } else { assert h[i + 1] == b[i - |a|]; }
    }
  }

  /** A label, a dot and a host name form a host name. */
  lemma ExtendHost(a: string, h: string)
    requires IsLabel(a) && IsHostName(h)
    ensures IsHostName(a + "." + h)
  {
    var g := a + "." + h;
    assert g[|a|] == '.';
    forall i | 0 <= i < |g| ensures IsHostChar(g[i]) {
      if i < |a| { assert g[i] == a[i]; } else if i > |a| { assert g[i] == h[i - |a| - 1]; }
    }
    forall i | 0 <= i < |g| - 1 ensures !(g[i] == '.' && g[i + 1] == '.') {
      if i < |a| { assert g[i] == a[i]; }
      else if i == |a| { assert g[i + 1] == h[0]; }
      else { assert g[i] == h[i - |a| - 1] && g[i + 1] == h[i - |a|]; }
    }
  }

  /** Every host name starts with a label and a dot, followed by a label or
      by a shorter host name. */
  lemma HostSplits(h: string)
    requires IsHostName(h)
    ensures var k := IndexOf(h, '.');
      k < |h| && h == h[..k] + "." + h[k + 1..] && IsLabel(h[..k]) &&
      (IsLabel(h[k + 1..]) || IsHostName(h[k + 1..]))
  {
    var k := IndexOf(h, '.');
    var a, r := h[..k], h[k + 1..];
    assert h == a + "." + r;
    forall i | 0 <= i < |a| ensures IsLabelChar(a[i]) {
      assert a[i] == h[i] && IsHostChar(h[i]);
    }
    HostTail(h, k);
    if '.' !in r {
      forall i | 0 <= i < |r| ensures IsLabelChar(r[i]) { assert IsHostChar(r[i]); }
    }
  }

  /** What follows a host name's dot is host characters that neither start
      nor end with a dot and have no two dots in a row. */
  lemma HostTail(h: string, k: nat)
    requires IsHostName(h) && k < |h| && h[k] == '.'
    ensures var r := h[k + 1..];
      r != [] && r[0] != '.' && r[|r| - 1] != '.' && AllChars(r, IsHostChar) &&
      forall i :: 0 <= i < |r| - 1 ==> !(r[i] == '.' && r[i + 1] == '.')
  {
    var r := h[k + 1..];
    assert k + 1 < |h| && h[k + 1] != '.';
    assert r[|r| - 1] == h[|h| - 1];
    forall i | 0 <= i < |r| ensures IsHostChar(r[i]) { assert r[i] == h[k + 1 + i]; }
    forall i | 0 <= i < |r| - 1 ensures !(r[i] == '.' && r[i + 1] == '.') {
      assert r[i] == h[k + 1 + i] && r[i + 1] == h[k + 2 + i];
    }
  }

  /** `s` starts with `prefix` ignoring the case of ASCII letters (the
      pattern's `i` flag; `prefix` is lower case). */
  predicate StartsWithIgnoringCase(s: string, prefix: string)
  {
    |prefix| <= |s| && forall i :: 0 <= i < |prefix| ==> LowerChar(s[i]) == prefix[i]
  }

  /** The text after the optional `https?://`. */
  function StripProtocol(s: string): (r: string)
    ensures StartsWithIgnoringCase(s, "https://") ==> r == s[8..]
    ensures !StartsWithIgnoringCase(s, "https://") && StartsWithIgnoringCase(s, "http://") ==> r == s[7..]
    ensures !StartsWithIgnoringCase(s, "https://") && !StartsWithIgnoringCase(s, "http://") ==> r == s
  {
    if StartsWithIgnoringCase(s, "https://") then s[8..]
    else if StartsWithIgnoringCase(s, "http://") then s[7..]
    else s
  }

  /** The pattern's test: after the protocol, the text up to the first '/'
      is a host name, and the rest is path characters. */
  predicate MatchesUrlPattern(s: string)
  {
    var rest := StripProtocol(s);
    var k := IndexOf(rest, '/');
    IsHostName(rest[..k]) && AllChars(rest[k..], IsPathChar)
  }

  /** A bare host name and a host name with a path are accepted, with or
      without the protocol. */
  lemma HostAndPathMatch(h: string, path: string)
    requires IsHostName(h) && AllChars(path, IsPathChar) && (path == [] || path[0] == '/')
    ensures MatchesUrlPattern(h + path)
    ensures MatchesUrlPattern("https://" + h + path)
  {
    assert '/' !in h by {
      forall i | 0 <= i < |h| ensures h[i] != '/' { assert IsHostChar(h[i]); }
    }
    NoProtocol(h, path, "http://");
    NoProtocol(h, path, "https://");
    FirstSlash(h, path);
    assert (h + path)[..|h|] == h && (h + path)[|h|..] == path;
    var u := "https://" + h + path;
    assert u[8..] == h + path;
    assert StartsWithIgnoringCase(u, "https://");
  }

  /** A text that starts with a host name does not start with a protocol. */
  lemma NoProtocol(h: string, path: string, protocol: string)
    requires IsHostName(h) && (path == [] || path[0] == '/')
    requires protocol == "http://" || protocol == "https://"
    ensures !StartsWithIgnoringCase(h + path, protocol)
  {
    var s := h + path;
    if |s| >= |protocol| {
      var colon := |protocol| - 3;
      assert protocol[colon] == ':';
      if colon < |h| {
        assert s[colon] == h[colon] && IsHostChar(h[colon]);
        assert LowerChar(s[colon]) != protocol[colon];
      } else {
        assert |h| >= 3 by {
          var k :| 0 <= k < |h| && h[k] == '.';
          assert k != 0 && k != |h| - 1;
        }
        assert s[|h|] == '/' && protocol[|h|] != '/';
        assert LowerChar(s[|h|]) != protocol[|h|];
      }
    }
  }

  lemma {:induction false} FirstSlash(h: string, path: string)
    requires '/' !in h && (path == [] || path[0] == '/')
    ensures IndexOf(h + path, '/') == |h|
  {
    if h == [] {
      assert h + path == path;
    } else {
      assert (h + path)[1..] == h[1..] + path;
      FirstSlash(h[1..], path);
    }
  }

  /** The URL tested and fetched: the text itself when it starts with
      "http://" or "https://" (case sensitive), else "https://" in front. */
  function Normalise(url: string): (r: string)
    ensures StartsWith(r, "http://") || StartsWith(r, "https://")
    ensures StartsWith(url, "http://") || StartsWith(url, "https://") ==> r == url
  {
    if StartsWith(url, "http://") || StartsWith(url, "https://") then url
    else
      assert ("https://" + url)[..8] == "https://";
      "https://" + url
  }

  /** Normalising twice is normalising once. */
  lemma NormaliseIdempotent(url: string)
    ensures Normalise(Normalise(url)) == Normalise(url)
  {
  }

  const InvalidUrlMessage := "Please enter a valid URL format"

  /** `validateUrl`: the empty text is fine; otherwise the text must match
      the pattern and its normalised form must parse as a URL. */
  function ValidateUrl(s: string, parses: string -> bool): (message: string)
    ensures s == "" ==> message == ""
    ensures s != "" && !MatchesUrlPattern(s) ==> message == InvalidUrlMessage
    ensures message == "" <==> s == "" || (MatchesUrlPattern(s) && parses(Normalise(s)))
    ensures message == "" || message == InvalidUrlMessage
  {
    if s == "" then ""
    else if !MatchesUrlPattern(s) then InvalidUrlMessage
    else if !parses(Normalise(s)) then InvalidUrlMessage
    else ""
  }

  /** The preview card: the fields of the preview response, or just the
      URL after a failed request. */
  datatype UrlPreview = UrlPreview(title: Option<string>, description: Option<string>, image: Option<string>, url: string)

  /** The fields of a successful preview response that the card reads. */
  datatype PreviewResponse = PreviewResponse(
    title: Option<string>, ogTitle: Option<string>,
    description: Option<string>, ogDescription: Option<string>,
    image: Option<string>, ogImage: Option<string>)

  /** `a || b` on optional strings. */
  function Or(a: Option<string>, b: Option<string>): (r: Option<string>)
    ensures a.Some? && a.value != "" ==> r == a
    ensures !(a.Some? && a.value != "") ==> r == b
  {
    if a.Some? && a.value != "" then a else b
  }

  class InfoUrl {
    const parses: string -> bool
    var answer: string
    var validationError: string
    var urlPreview: Option<UrlPreview>
    var loadingPreview: bool
    var previewError: bool

    constructor (value: Option<string>, parses: string -> bool)
      ensures this.parses == parses
      ensures answer == (if value.Some? then value.value else "")
      ensures validationError == "" && urlPreview.None? && !loadingPreview && !previewError
    {
      this.parses := parses;
      answer := if value.Some? then value.value else "";
      validationError := "";
      urlPreview := None;
      loadingPreview := false;
      previewError := false;
    }

    /** `handleInputChange`: the text is always shown; an empty or invalid
        text clears the preview; the text is reported only without error,
        and a preview of its normalised form is requested only when it is
        also non-empty. */
    method InputChange(newValue: string) returns (reported: Emit<string>, fetch: Option<string>)
      modifies this
      ensures answer == newValue
      ensures validationError == ValidateUrl(newValue, parses)
      ensures reported.Called? <==> validationError == ""
      ensures reported.Called? ==> reported.arg == newValue
      ensures fetch.Some? <==> newValue != "" && validationError == ""
      ensures fetch.Some? ==> fetch.value == Normalise(newValue) && loadingPreview
      ensures (newValue == "" || validationError != "") ==> urlPreview.None? && !previewError
      ensures fetch.Some? ==> urlPreview.None? && !previewError
      ensures fetch.None? ==> loadingPreview == old(loadingPreview)
    {
      answer := newValue;
      var errorMsg := ValidateUrl(newValue, parses);
      validationError := errorMsg;
      if newValue == "" || errorMsg != "" {
        urlPreview := None;
        previewError := false;
      }
      fetch := None;
      if errorMsg == "" {
        reported := Called(newValue);
        if newValue != "" {
          loadingPreview := true;
          previewError := false;
          urlPreview := None;
          fetch := Some(Normalise(newValue));
        }
      } else {
        reported := NotCalled;
      }
    }

    /** The end of `fetchUrlPreview(url)`: a response fills the card,
        preferring `title` over `ogTitle` and so on; a failure leaves a card
        with only the normalised URL and sets the error flag. */
    method FetchFinished(url: string, response: Option<PreviewResponse>)
      modifies this
      ensures !loadingPreview
      ensures response.None? ==> previewError && urlPreview == Some(UrlPreview(None, None, None, Normalise(url)))
      ensures response.Some? ==> previewError == old(previewError) && urlPreview == Some(UrlPreview(
        Or(response.value.title, response.value.ogTitle),
        Or(response.value.description, response.value.ogDescription),
        Or(response.value.image, response.value.ogImage),
        Normalise(url)))
      ensures answer == old(answer) && validationError == old(validationError)
    {
      if response.Some? {
        var data := response.value;
        urlPreview := Some(UrlPreview(Or(data.title, data.ogTitle), Or(data.description, data.ogDescription),
                                      Or(data.image, data.ogImage), Normalise(url)));
      } else {
        previewError := true;
        urlPreview := Some(UrlPreview(None, None, None, Normalise(url)));
      }
      loadingPreview := false;
    }

    /** `clearPreview`. */
    method ClearPreview()
      modifies this
      ensures urlPreview.None? && !previewError
      ensures answer == old(answer) && validationError == old(validationError) && loadingPreview == old(loadingPreview)
    {
      urlPreview := None;
      previewError := false;
    }

    /** The value-sync effect: only a truthy value replaces the answer. */
    method ValueChanged(value: Option<string>)
      modifies this
      ensures answer == (if value.Some? && value.value != "" then value.value else old(answer))
      ensures validationError == old(validationError) && urlPreview == old(urlPreview)
    {
      if value.Some? && value.value != "" {
        answer := value.value;
      }
    }
  }
}
