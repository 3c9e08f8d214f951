/** The link-preview endpoint: HTML entity decoding, the precedence that
    combines Open Graph, Twitter card and plain `<title>`/description tags,
    and the GET handler's answers. The page download, the tag regexes and
    `new URL(relative, base)` are inputs. */
module UrlPreview {
  import opened Prelude
  import opened Constants

  // ---------------------------------------------------------------------
  // decodeHtmlEntities

  /** The six entities the decoder knows. */
  function EntityValue(e: string): (r: Option<string>)
    ensures r.Some? ==> |r.value| == 1 && |r.value| < |e|
  {
    if e == "&amp;" then Some("&")
    else if e == "&lt;" then Some("<")
    else if e == "&gt;" then Some(">")
    else if e == "&quot;" then Some("\"")
    else if e == "&#39;" then Some("'")
    else if e == "&apos;" then Some("'")
    else None
  }

  /** `entities[entity] || entity`. */
  function ReplaceEntity(e: string): (r: string)
    ensures |r| <= |e|
  {
    var v := EntityValue(e);
    if v.Some? then v.value else e
  }

  /** The length of the match of `&[^;]+;` at the start of `s`, or 0 when
      there is none: it runs from the '&' to the first ';' after it, with
      at least one character between them. */
  function MatchLength(s: string): (n: nat)
    ensures n == 0 || (3 <= n <= |s| && s[0] == '&' && s[n - 1] == ';' && ';' !in s[1..n - 1])
  {
    if s != [] && s[0] == '&' then
      var j := IndexOf(s[1..], ';');
      assert s[1..][..j] == s[1..j + 1];
      if 1 <= j < |s| - 1 then j + 2 else 0
    else 0
  }

  /** `text.replace(/&[^;]+;/g, …)`: one left-to-right pass; replaced text
      is not scanned again. */
  function Decode(s: string): (r: string)
    ensures |r| <= |s|
    decreases |s|
  {
    if s == [] then []
    else
      var n := MatchLength(s);
      if n > 0 then ReplaceEntity(s[..n]) + Decode(s[n..])
      else [s[0]] + Decode(s[1..])
  }

  /** Text without '&' is returned unchanged. */
  lemma {:induction false} DecodeWithoutAmpersand(s: string)
    requires '&' !in s
    ensures Decode(s) == s
    decreases |s|
  {
    if s != [] {
      assert MatchLength(s) == 0;
      assert '&' !in s[1..];
      DecodeWithoutAmpersand(s[1..]);
    }
  }

  /** An entity at the front is replaced and the decoding continues after
      its ';'. */
  lemma DecodeEntityFirst(e: string, rest: string)
    requires |e| >= 3 && e[0] == '&' && e[|e| - 1] == ';' && ';' !in e[1..|e| - 1]
    ensures Decode(e + rest) == ReplaceEntity(e) + Decode(rest)
  {
    var s := e + rest;
    assert s[1..] == e[1..|e| - 1] + [';'] + rest;
    IndexOfAt(e[1..|e| - 1], ';', rest);
    assert MatchLength(s) == |e|;
    assert s[..|e|] == e && s[|e|..] == rest;
  }

  /** Decoding is a single pass: the '&' that "&amp;" yields is not read
      again as the start of an entity, so "&amp;lt;" becomes "&lt;", not
      "<". */
  lemma DecodeSinglePass(name: string)
    requires name != [] && '&' !in name && ';' !in name
    ensures Decode("&amp;" + name + ";") == "&" + name + ";"
  {
    var e, rest := "&amp;", name + ";";
    assert e + name + ";" == e + rest;
    assert e[1..|e| - 1] == "amp";
    DecodeEntityFirst(e, rest);
    DecodeWithoutAmpersand(rest);
  }

  /** A match spans to the first ';', so "&x&amp;" is one unknown entity
      and stays as it is. */
  lemma DecodeSpansToFirstSemicolon()
    ensures Decode("&x&amp;") == "&x&amp;"
  {
    var e := "&x&amp;";
    assert e[1..|e| - 1] == "x&amp";
    DecodeEntityFirst(e, "");
    assert e + "" == e;
  }

  /** The escaping that `Decode` undoes: the five characters with a
      named or numeric entity in the table become that entity. */
  function EscapeChar(c: char): (e: string)
    ensures c != '&' && c != '<' && c != '>' && c != '"' && c != '\'' ==> e == [c]
  {
    if c == '&' then "&amp;"
    else if c == '<' then "&lt;"
    else if c == '>' then "&gt;"
    else if c == '"' then "&quot;"
    else if c == '\'' then "&#39;"
    else [c]
  }

  function Escape(s: string): string
  {
    if s == [] then [] else EscapeChar(s[0]) + Escape(s[1..])
  }

  lemma DecodeEscapedChar(c: char, t: string)
    ensures Decode(EscapeChar(c) + t) == [c] + Decode(t)
  {
    var e := EscapeChar(c);
    var s := e + t;
    if |e| == 1 {
      assert s[0] == c && c != '&';
      assert s[1..] == t;
    } else {
      var j := IndexOf(s[1..], ';');
      assert s[1..] == e[1..] + t;
      assert j == |e| - 2 by {
        assert s[1..][|e| - 2] == ';';
        assert forall k :: 0 <= k < |e| - 2 ==> s[1..][k] != ';';
      }
      assert MatchLength(s) == |e|;
      assert s[..|e|] == e && s[|e|..] == t;
    }
  }

  /** Decoding undoes escaping. */
  lemma {:induction false} DecodeEscape(s: string)
    ensures Decode(Escape(s)) == s
  {
    if s != [] {
      DecodeEscapedChar(s[0], Escape(s[1..]));
      DecodeEscape(s[1..]);
      assert s == [s[0]] + s[1..];
    }
  }

  // ---------------------------------------------------------------------
  // extractMetadata

  /** The group captured for one tag: the first of the two regexes
      (attribute first, content first) that matches, if any. */
  datatype TagMatch = TagMatch(attributeFirst: Option<string>, contentFirst: Option<string>)

  function Captured(t: TagMatch): (r: Option<string>)
    ensures t.attributeFirst.Some? ==> r == t.attributeFirst
    ensures t.attributeFirst.None? ==> r == t.contentFirst
  {
    if t.attributeFirst.Some? then t.attributeFirst else t.contentFirst
  }

  /** What the regexes found in a page. */
  datatype PageTags = PageTags(
    ogTitle: TagMatch, ogDescription: TagMatch, ogImage: TagMatch,
    twitterTitle: TagMatch, twitterDescription: TagMatch, twitterImage: TagMatch,
    title: Option<string>, description: TagMatch)

  /** The decoded text of a captured group. */
  function DecodedText(c: Option<string>): Option<string>
  {
    if c.Some? then Some(Decode(c.value)) else None
  }

  /** The first present, non-empty candidate, else "". */
  function FirstNonEmpty(candidates: seq<Option<string>>): (r: string)
    ensures r == "" || exists i :: 0 <= i < |candidates| && candidates[i] == Some(r)
    ensures r == "" <==> forall i :: 0 <= i < |candidates| ==> candidates[i].None? || candidates[i].value == ""
  {
    if candidates == [] then ""
    else if candidates[0].Some? && candidates[0].value != "" then candidates[0].value
    else
      var r := FirstNonEmpty(candidates[1..]);
      assert forall i :: 1 <= i < |candidates| ==> candidates[i] == candidates[1..][i - 1];
      assert r != "" ==> exists i :: 0 <= i < |candidates[1..]| && candidates[1..][i] == Some(r);
      r
  }

  /** An image reference: kept when it starts with "http", else resolved
      against the page URL; resolution can throw. */
  datatype Image = NoImage | ImageUrl(href: string) | ResolveThrows

  function ImageOf(c: Option<string>, url: string, resolve: (string, string) -> Option<string>): (r: Image)
    ensures c.None? <==> r.NoImage?
    ensures c.Some? && StartsWith(c.value, "http") ==> r == ImageUrl(c.value)
  {
    if c.None? then NoImage
    else if StartsWith(c.value, "http") then ImageUrl(c.value)
    else
      var h := resolve(c.value, url);
      if h.Some? then ImageUrl(h.value) else ResolveThrows
  }

  /** The `ogImage` entry: the og:image, replaced by the twitter:image only
      when the former is absent or empty (the Twitter image is resolved
      only then). */
  function ChosenImage(tags: PageTags, url: string, resolve: (string, string) -> Option<string>): Image
  {
    var og := ImageOf(Captured(tags.ogImage), url, resolve);
    if og.ResolveThrows? then ResolveThrows
    else if og.ImageUrl? && og.href != "" then og
    else
      var tw := ImageOf(Captured(tags.twitterImage), url, resolve);
      if tw.NoImage? then og else tw
  }

  function ImageText(img: Image): string
  {
    if img.ImageUrl? then img.href else ""
  }

  /** The keys of the metadata dictionary. */
  datatype MetaKey = UrlKey | OgTitle | OgDescription | OgImage | TitleKey | DescriptionKey | ImageKey

  /** The JSON property name of a key. */
  function KeyName(k: MetaKey): string
  {
    match k
    case UrlKey => "url"
    case OgTitle => "ogTitle"
    case OgDescription => "ogDescription"
    case OgImage => "ogImage"
    case TitleKey => "title"
    case DescriptionKey => "description"
    case ImageKey => "image"
  }

  type Metadata = map<MetaKey, string>

  /** The entry a dictionary holds for a key, if any. */
  function Entry(m: Metadata, key: MetaKey): (e: Option<string>)
    ensures e.Some? <==> key in m
    ensures e.Some? ==> e.value == m[key]
  {
    if key in m then Some(m[key]) else None
  }

  /** `metadata[key]` is truthy. */
  predicate Present(m: Metadata, key: MetaKey)
  {
    key in m && m[key] != ""
  }

  /** `metadata[key] || fallback`. */
  function Or(m: Metadata, key: MetaKey, fallback: string): string
  {
    if Present(m, key) then m[key] else fallback
  }

  /** A present, non-empty text. */
  predicate NonEmpty(v: Option<string>)
  {
    v.Some? && v.value != ""
  }

  /** `if (match) metadata[key] = value`. */
  function SetIfMatched(m: Metadata, key: MetaKey, v: Option<string>): (r: Metadata)
    ensures Entry(r, key) == (if v.Some? then v else Entry(m, key))
    ensures forall k :: k != key ==> Entry(r, k) == Entry(m, k)
  {
    if v.Some? then m[key := v.value] else m
  }

  /** `if (match && !metadata[key]) metadata[key] = value`. */
  function SetIfUnset(m: Metadata, key: MetaKey, v: Option<string>): (r: Metadata)
    ensures Entry(r, key) == (if v.Some? && !NonEmpty(Entry(m, key)) then v else Entry(m, key))
    ensures forall k :: k != key ==> Entry(r, k) == Entry(m, k)
  {
    if v.Some? && !Present(m, key) then m[key := v.value] else m
  }

  /** The entry a primary tag leaves after its fallback was consulted: the
      primary when non-empty, else the fallback when it matched. */
  function Preferred(primary: Option<string>, fallback: Option<string>): (e: Option<string>)
    ensures NonEmpty(primary) ==> e == primary
    ensures !NonEmpty(primary) && fallback.Some? ==> e == fallback
    ensures !NonEmpty(primary) && fallback.None? ==> e == primary
  {
    if NonEmpty(primary) then primary else if fallback.Some? then fallback else primary
  }

  /** The final text of a `primary || fallback || ''` entry. */
  lemma PreferredText(a: Option<string>, b: Option<string>, c: Option<string>)
    ensures var p := Preferred(a, b);
      FirstNonEmpty([a, b, c]) ==
        if NonEmpty(p) then p.value else if NonEmpty(c) then c.value else ""
  {
    assert [a, b, c][1..] == [b, c];
    assert [b, c][1..] == [c];
    assert [c][1..] == [];
    assert FirstNonEmpty([c]) == if NonEmpty(c) then c.value else "";
    assert FirstNonEmpty([b, c]) == if NonEmpty(b) then b.value else FirstNonEmpty([c]);
  }

  /** The `ogImage` entry an image reference sets. */
  function ImageEntry(img: Image): Option<string>
  {
    if img.ImageUrl? then Some(img.href) else None
  }

  /** The Open Graph step of `extractMetadata`. */
  method OpenGraphTags(tags: PageTags, url: string, resolve: (string, string) -> Option<string>)
    returns (m: Option<Metadata>)
    ensures m.None? <==> ImageOf(Captured(tags.ogImage), url, resolve).ResolveThrows?
    ensures m.Some? ==>
      Entry(m.value, UrlKey) == Some(url) &&
      Entry(m.value, OgTitle) == DecodedText(Captured(tags.ogTitle)) &&
      Entry(m.value, OgDescription) == DecodedText(Captured(tags.ogDescription)) &&
      Entry(m.value, OgImage) == ImageEntry(ImageOf(Captured(tags.ogImage), url, resolve)) &&
      TitleKey !in m.value && DescriptionKey !in m.value
  {
    var metadata: Metadata := map[UrlKey := url];
    metadata := SetIfMatched(metadata, OgTitle, DecodedText(Captured(tags.ogTitle)));
    metadata := SetIfMatched(metadata, OgDescription, DecodedText(Captured(tags.ogDescription)));
    var ogImage := ImageOf(Captured(tags.ogImage), url, resolve);
    if ogImage.ResolveThrows? { return None; }
    metadata := SetIfMatched(metadata, OgImage, ImageEntry(ogImage));
    m := Some(metadata);
  }

  /** The Twitter card step: each value is used only where the Open Graph
      entry is missing or empty. */
  method TwitterTags(metadata: Metadata, tags: PageTags, url: string, resolve: (string, string) -> Option<string>)
    returns (m: Option<Metadata>)
    ensures var tw := ImageOf(Captured(tags.twitterImage), url, resolve);
      m.None? <==> !NonEmpty(Entry(metadata, OgImage)) && tw.ResolveThrows?
    ensures var tw := ImageOf(Captured(tags.twitterImage), url, resolve);
      m.Some? ==>
        Entry(m.value, OgTitle) == Preferred(Entry(metadata, OgTitle), DecodedText(Captured(tags.twitterTitle))) &&
        Entry(m.value, OgDescription) == Preferred(Entry(metadata, OgDescription), DecodedText(Captured(tags.twitterDescription))) &&
        Entry(m.value, OgImage) == (if NonEmpty(Entry(metadata, OgImage)) || tw.NoImage? then Entry(metadata, OgImage) else ImageEntry(tw)) &&
        Entry(m.value, UrlKey) == Entry(metadata, UrlKey) &&
        Entry(m.value, TitleKey) == Entry(metadata, TitleKey) &&
        Entry(m.value, DescriptionKey) == Entry(metadata, DescriptionKey)
  {
    var result := SetIfUnset(metadata, OgTitle, DecodedText(Captured(tags.twitterTitle)));
    result := SetIfUnset(result, OgDescription, DecodedText(Captured(tags.twitterDescription)));
    var twitterImage := Captured(tags.twitterImage);
    if twitterImage.Some? && !Present(result, OgImage) {
      var tw := ImageOf(twitterImage, url, resolve);
      if tw.ResolveThrows? { return None; }
      result := result[OgImage := tw.href];
    }
    m := Some(result);
  }

  /** The plain `<title>` and description step and the final
      `og || plain || ''` entries. */
  function PlainAndFinal(metadata: Metadata, tags: PageTags): (r: Metadata)
    ensures UrlKey in metadata ==> UrlKey in r && r[UrlKey] == metadata[UrlKey]
    ensures Entry(r, OgImage) == Entry(metadata, OgImage)
    ensures TitleKey in r && DescriptionKey in r
    ensures var title := DecodedText(tags.title);
      TitleKey !in metadata ==>
        r[TitleKey] == (if NonEmpty(Entry(metadata, OgTitle)) then metadata[OgTitle]
                        else if NonEmpty(title) then title.value
                        else "")
    ensures var description := DecodedText(Captured(tags.description));
      DescriptionKey !in metadata ==>
        r[DescriptionKey] == (if NonEmpty(Entry(metadata, OgDescription)) then metadata[OgDescription]
                              else if NonEmpty(description) then description.value
                              else "")
    ensures ImageKey in r && r[ImageKey] == Or(metadata, OgImage, "")
  {
    var p := PlainTags(metadata, tags);
    assert Entry(p, OgTitle) == Entry(metadata, OgTitle);
    assert Entry(p, OgDescription) == Entry(metadata, OgDescription);
    assert Entry(p, OgImage) == Entry(metadata, OgImage);
    assert Entry(p, UrlKey) == Entry(metadata, UrlKey);
    FinalEntries(p)
  }

  /** The plain `<title>` and description tags, each consulted only while
      its Open Graph entry is empty and, when matched, overwriting its key. */
  function PlainTags(metadata: Metadata, tags: PageTags): (r: Metadata)
    ensures forall k :: k != TitleKey && k != DescriptionKey ==> Entry(r, k) == Entry(metadata, k)
    ensures var title := DecodedText(tags.title);
      Entry(r, TitleKey) == (if NonEmpty(Entry(metadata, OgTitle)) || title.None? then Entry(metadata, TitleKey)
                             else title)
    ensures var description := DecodedText(Captured(tags.description));
      Entry(r, DescriptionKey) == (if NonEmpty(Entry(metadata, OgDescription)) || description.None?
                                   then Entry(metadata, DescriptionKey)
                                   else description)
  {
    var m1 := SetIfMatched(metadata, TitleKey, if Present(metadata, OgTitle) then None else DecodedText(tags.title));
    SetIfMatched(m1, DescriptionKey, if Present(m1, OgDescription) then None else DecodedText(Captured(tags.description)))
  }

  /** `title: og || plain || ''`, the same for the description, and
      `image: og || ''`. */
  function FinalEntries(m: Metadata): (r: Metadata)
    ensures UrlKey in m ==> UrlKey in r && r[UrlKey] == m[UrlKey]
    ensures Entry(r, OgImage) == Entry(m, OgImage)
    ensures TitleKey in r && r[TitleKey] == Or(m, OgTitle, Or(m, TitleKey, ""))
    ensures DescriptionKey in r && r[DescriptionKey] == Or(m, OgDescription, Or(m, DescriptionKey, ""))
    ensures ImageKey in r && r[ImageKey] == Or(m, OgImage, "")
  {
    var m3 := m[TitleKey := Or(m, OgTitle, Or(m, TitleKey, ""))];
    var m4 := m3[DescriptionKey := Or(m3, OgDescription, Or(m3, DescriptionKey, ""))];
    m4[ImageKey := Or(m4, OgImage, "")]
  }

  /** `extractMetadata`: the Open Graph, Twitter card and plain steps in
      the source's order. `None` is a `new URL` that threw. */
  method ExtractMetadata(tags: PageTags, url: string, resolve: (string, string) -> Option<string>)
    returns (r: Option<Metadata>)
    ensures r.None? <==> ChosenImage(tags, url, resolve).ResolveThrows?
    ensures r.Some? ==> UrlKey in r.value && r.value[UrlKey] == url
    ensures r.Some? ==> TitleKey in r.value && r.value[TitleKey] == FirstNonEmpty([
      DecodedText(Captured(tags.ogTitle)), DecodedText(Captured(tags.twitterTitle)), DecodedText(tags.title)])
    ensures r.Some? ==> DescriptionKey in r.value && r.value[DescriptionKey] == FirstNonEmpty([
      DecodedText(Captured(tags.ogDescription)), DecodedText(Captured(tags.twitterDescription)), DecodedText(Captured(tags.description))])
    ensures r.Some? ==> ImageKey in r.value && r.value[ImageKey] == ImageText(ChosenImage(tags, url, resolve))
    ensures r.Some? ==> (OgImage in r.value <==> ChosenImage(tags, url, resolve).ImageUrl?)
  {
    var og := OpenGraphTags(tags, url, resolve);
    if og.None? { return None; }
    var m0 := og.value;
    var tw := TwitterTags(m0, tags, url, resolve);
    if tw.None? { return None; }
    var m1 := tw.value;
    assert Entry(m1, OgImage) == ImageEntry(ChosenImage(tags, url, resolve));
    PreferredText(DecodedText(Captured(tags.ogTitle)), DecodedText(Captured(tags.twitterTitle)), DecodedText(tags.title));
    PreferredText(DecodedText(Captured(tags.ogDescription)), DecodedText(Captured(tags.twitterDescription)), DecodedText(Captured(tags.description)));
    r := Some(PlainAndFinal(m1, tags));
  }

  // ---------------------------------------------------------------------
  // GET

  /** A reply of the endpoint: the metadata with status 200, or an error
      body `{ error, url? }` with its status. */
  datatype Reply = Preview(metadata: Metadata) | Failure(status: int, error: string, url: Option<string>)

  /** The GET handler. `fetch` is the download (`None` for an invalid URL,
      a network failure, a timeout or a non-OK status), `scan` the tag
      regexes applied to the page. */
  method Get(urlParam: Option<string>, fetch: string -> Option<string>, scan: string -> PageTags,
             resolve: (string, string) -> Option<string>)
    returns (reply: Reply)
    ensures urlParam.None? || urlParam.value == "" ==>
      reply == Failure(400, "URL parameter is required", None)
    ensures urlParam.Some? && urlParam.value != "" && fetch(urlParam.value).None? ==>
      reply == Failure(500, "Failed to fetch URL preview", urlParam)
    ensures urlParam.Some? && urlParam.value != "" && fetch(urlParam.value).Some? ==>
      (reply.Preview? <==> !ChosenImage(scan(fetch(urlParam.value).value), urlParam.value, resolve).ResolveThrows?) &&
      (reply.Failure? ==> reply == Failure(500, "Failed to fetch URL preview", urlParam))
    ensures reply.Preview? ==> urlParam.Some? && UrlKey in reply.metadata && reply.metadata[UrlKey] == urlParam.value
  {
    if urlParam.None? || urlParam.value == "" {
      return Failure(400, "URL parameter is required", None);
    }
    var url := urlParam.value;
    var html := fetch(url);
    if html.None? {
      return Failure(500, "Failed to fetch URL preview", urlParam);
    }
    var metadata := ExtractMetadata(scan(html.value), url, resolve);
    if metadata.None? {
      return Failure(500, "Failed to fetch URL preview", urlParam);
    }
    reply := Preview(metadata.value);
  }
}
