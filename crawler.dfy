/**
 * crawl_url: one audit of one page. The URL is normalised, a result record
 * is filled with defaults, and — depending on how the fetch went — the
 * error, the fetch metrics, and the fields extracted from a 200 page are
 * written into it.
 *
 * The fetch (an HTTP GET with a clock around it) is an input, `Fetch`;
 * `urljoin` and `urlparse(url).netloc` are function-valued inputs.
 */
module Crawler {
  import opened Wrappers
  import opened Text
  import opened Html

  /** `urllib.parse.urljoin(base, ref)`. */
  type UrlJoin = (string, string) -> string

  /** `urllib.parse.urlparse(url).netloc`. */
  type NetLoc = string -> string

  /** The outcome of `requests.get`: it raised a RequestException whose text
      is `message`, or it returned a response with a status code, the
      measured load time (already rounded to four places) and the parsed body. */
  datatype Fetch =
    | Failure(message: string)
    | Response(status: int, elapsed: real, doc: Document)

  /** One entry of the `images` list: `{"src": ..., "alt": ...}`. */
  datatype ImageRef = ImageRef(src: string, alt: string)

  /** The results dictionary, one field per key. */
  datatype Results = Results(
    url: string,
    statusCode: int,
    loadTime: real,
    title: string,
    metaDesc: string,
    h1: seq<string>,
    h2: seq<string>,
    images: seq<ImageRef>,
    internalLinks: int,
    externalLinks: int,
    error: Option<string>)

  /** The sentinel for an absent title or meta description. */
  const MISSING: string := "Missing"

  predicate HasScheme(url: string)
  {
    StartsWith(url, "http://") || StartsWith(url, "https://")
  }

  /** Input validation: a URL without an http:// or https:// prefix gets https://. */
  function NormalizeUrl(url: string): (r: string)
    ensures HasScheme(r)
    ensures HasScheme(url) ==> r == url
    ensures !HasScheme(url) ==> r == "https://" + url
  {
    if HasScheme(url) then url else "https://" + url
  }

  lemma NormalizeIdempotent(url: string)
    ensures NormalizeUrl(NormalizeUrl(url)) == NormalizeUrl(url)
  {
  }

  /** The dictionary as first built: nothing fetched, nothing found. */
  function Initial(url: string): Results
  {
    Results(url, 0, 0.0, MISSING, MISSING, [], [], [], 0, 0, None)
  }

  function ConnectionError(message: string): string
  {
    "Connection Error: " + message
  }

  /** `soup.title and soup.title.string`: a title element whose string is non-empty. */
  predicate UsableTitle(t: Option<TitleTag>)
  {
    t.Some? && t.value.str.Some? && t.value.str.value != ""
  }

  /** `meta and meta.get('content')`: a description meta with non-empty content. */
  predicate UsableMeta(m: Option<MetaTag>)
  {
    m.Some? && m.value.content.Some? && m.value.content.value != ""
  }

  /** The title field of a 200 page. */
  function TitleField(t: Option<TitleTag>): string
  {
    if UsableTitle(t) then Strip(t.value.str.value) else MISSING
  }

  /** The meta_desc field of a 200 page. */
  function MetaField(metas: seq<MetaTag>): string
  {
    var m := FindDescription(metas);
    if UsableMeta(m) then Strip(m.value.content.value) else MISSING
  }

  /** `if src:` — the image has a non-empty src attribute. */
  predicate HasSrc(img: ImgTag)
  {
    img.src.Some? && img.src.value != ""
  }

  /** `img.get('alt', '').strip()` */
  function AltText(img: ImgTag): string
  {
    Strip(img.alt.GetOr(""))
  }

  /** The entry one <img> contributes: none when its src is absent or empty. */
  function ImageEntry(base: string, img: ImgTag, join: UrlJoin): seq<ImageRef>
  {
    if HasSrc(img) then [ImageRef(join(base, img.src.value), AltText(img))] else []
  }

  /** The images list the loop builds: one entry per image with a non-empty src. */
  function ImageRefs(base: string, imgs: seq<ImgTag>, join: UrlJoin): (r: seq<ImageRef>)
    ensures |r| <= |imgs|
  {
    if imgs == [] then [] else ImageEntry(base, imgs[0], join) + ImageRefs(base, imgs[1..], join)
  }

  /** `domain in href or href.startswith('/')`: a test on the raw href text,
      not a comparison of hosts. */
  predicate IsInternal(href: string, domain: string)
  {
    Contains(href, domain) || StartsWith(href, "/")
  }

  /** How many of `links` the loop counts as internal. */
  function InternalCount(links: seq<string>, domain: string): nat
  {
    if links == [] then 0
    else (if IsInternal(links[0], domain) then 1 else 0) + InternalCount(links[1..], domain)
  }

  /** How many of `links` the loop counts as external. */
  function ExternalCount(links: seq<string>, domain: string): nat
  {
    if links == [] then 0
    else (if IsInternal(links[0], domain) then 0 else 1) + ExternalCount(links[1..], domain)
  }

  /** The fields a 200 page fills in, on top of `fetched`. */
  function Extract(fetched: Results, target: string, doc: Document, join: UrlJoin, domain: string): Results
  {
    var links := Hrefs(doc.anchors);
    fetched.(title := TitleField(doc.title),
             metaDesc := MetaField(doc.metas),
             h1 := doc.h1,
             h2 := doc.h2,
             images := ImageRefs(target, doc.images, join),
             internalLinks := InternalCount(links, domain),
             externalLinks := ExternalCount(links, domain))
  }

  /** What crawl_url returns for `url` when the request ends in `fetch`. */
  function Crawl(url: string, fetch: Fetch, join: UrlJoin, netloc: NetLoc): Results
  {
    var target := NormalizeUrl(url);
    match fetch
    case Failure(message) =>
      Initial(target).(error := Some(ConnectionError(message)))
    case Response(status, elapsed, doc) =>
      var fetched := Initial(target).(loadTime := elapsed, statusCode := status);
      if status != 200 then fetched else Extract(fetched, target, doc, join, netloc(target))
  }

  /** crawl_url itself: normalise the URL, build the dictionary of defaults,
      then record the error, or the fetch metrics and, for a 200, the page. */
  method CrawlUrl(url: string, fetch: Fetch, join: UrlJoin, netloc: NetLoc) returns (results: Results)
    ensures results == Crawl(url, fetch, join, netloc)
  {
    var target := url;
    if !HasScheme(target) {
      target := "https://" + target;
    }
    results := Initial(target);
    match fetch {
      case Failure(message) =>
        results := results.(error := Some(ConnectionError(message)));
      case Response(status, elapsed, doc) =>
        results := results.(loadTime := elapsed);
        results := results.(statusCode := status);
        if status == 200 {
          results := ParsePage(results, target, doc, join, netloc(target));
        }
    }
  }

  /** The parsing branch of crawl_url, run on the dictionary of a 200 response: title and meta
      description when usable, the heading texts, then the image loop and
      the link-counting loop. Only a fresh dictionary is passed in, whose
      images list is empty and whose counters are zero. */
  method ParsePage(results: Results, target: string, doc: Document, join: UrlJoin, domain: string) returns (r: Results)
    requires results.title == MISSING && results.metaDesc == MISSING
    requires results.images == [] && results.internalLinks == 0 && results.externalLinks == 0
    ensures r == Extract(results, target, doc, join, domain)
  {
    r := results;
    if UsableTitle(doc.title) {
      r := r.(title := Strip(doc.title.value.str.value));
    }
    var meta := FindDescription(doc.metas);
    if UsableMeta(meta) {
      r := r.(metaDesc := Strip(meta.value.content.value));
    }
    r := r.(h1 := doc.h1, h2 := doc.h2);
    r := AppendImages(r, target, doc.images, join);
    r := CountLinks(r, Hrefs(doc.anchors), domain);
  }

  /** The image loop: for each <img>, in order, append `{src: urljoin(url, src), alt}`
      to the images list when its src is non-empty. */
  method AppendImages(results: Results, base: string, imgs: seq<ImgTag>, join: UrlJoin) returns (r: Results)
    ensures r == results.(images := results.images + ImageRefs(base, imgs, join))
  {
    r := results;
    for i := 0 to |imgs|
      invariant r == results.(images := results.images + ImageRefs(base, imgs[..i], join))
    {
      ImageRefsStep(base, imgs, i, join);
      ghost var done := results.images + ImageRefs(base, imgs[..i], join);
      var src := imgs[i].src;
      var alt := Strip(imgs[i].alt.GetOr(""));
      if src.Some? && src.value != "" {
        var fullSrc := join(base, src.value);
        r := r.(images := r.images + [ImageRef(fullSrc, alt)]);
        assert ImageEntry(base, imgs[i], join) == [ImageRef(fullSrc, alt)];
      } else {
        assert ImageEntry(base, imgs[i], join) == [];
      }
      assert r.images == done + ImageEntry(base, imgs[i], join);
    }
    assert imgs[..|imgs|] == imgs;
  }

  /** The link-counting loop: for each href, bump internal_links when it contains the
      domain or starts with '/', and external_links otherwise. */
  method CountLinks(results: Results, links: seq<string>, domain: string) returns (r: Results)
    ensures r == results.(internalLinks := results.internalLinks + InternalCount(links, domain),
                          externalLinks := results.externalLinks + ExternalCount(links, domain))
  {
    r := results;
    for i := 0 to |links|
      invariant r == results.(internalLinks := results.internalLinks + InternalCount(links[..i], domain),
                              externalLinks := results.externalLinks + ExternalCount(links[..i], domain))
    {
      var href := links[i];
      if Contains(href, domain) || StartsWith(href, "/") {
        r := r.(internalLinks := r.internalLinks + 1);
      } else {
        r := r.(externalLinks := r.externalLinks + 1);
      }
      assert links[..i + 1] == links[..i] + [href];
      LinkCountsAppend(links[..i], [href], domain);
    }
    assert links[..|links|] == links;
  }

  // ---------------------------------------------------------------------
  // Images

  /** The images list preserves document order: the entries for a + b are
      those for a followed by those for b. */
  lemma {:induction false} ImageRefsAppend(base: string, a: seq<ImgTag>, b: seq<ImgTag>, join: UrlJoin)
    ensures ImageRefs(base, a + b, join) == ImageRefs(base, a, join) + ImageRefs(base, b, join)
  {
    if a == [] {
      assert a + b == b;
    } else {
      var head := ImageEntry(base, a[0], join);
      calc {
        ImageRefs(base, a + b, join);
        { assert (a + b)[0] == a[0] && (a + b)[1..] == a[1..] + b; }
        head + ImageRefs(base, a[1..] + b, join);
        { ImageRefsAppend(base, a[1..], b, join); }
        head + (ImageRefs(base, a[1..], join) + ImageRefs(base, b, join));
        (head + ImageRefs(base, a[1..], join)) + ImageRefs(base, b, join);
        ImageRefs(base, a, join) + ImageRefs(base, b, join);
      }
    }
  }

  /** One more iteration of the image loop. */
  lemma ImageRefsStep(base: string, imgs: seq<ImgTag>, i: nat, join: UrlJoin)
    requires i < |imgs|
    ensures ImageRefs(base, imgs[..i + 1], join) ==
      ImageRefs(base, imgs[..i], join) + ImageEntry(base, imgs[i], join)
  {
    assert imgs[..i + 1] == imgs[..i] + [imgs[i]];
    assert [imgs[i]][1..] == [];
    ImageRefsAppend(base, imgs[..i], [imgs[i]], join);
  }

  /** Images without a src contribute nothing. */
  lemma {:induction false} ImageRefsNoneKept(base: string, imgs: seq<ImgTag>, join: UrlJoin)
    requires forall k | 0 <= k < |imgs| :: !HasSrc(imgs[k])
    ensures ImageRefs(base, imgs, join) == []
  {
    if imgs != [] {
      ImageRefsNoneKept(base, imgs[1..], join);
    }
  }

  /** When every image has a src, there is exactly one entry per image, the
      k-th entry resolving the k-th image's src against the page URL. */
  lemma {:induction false} ImageRefsAllKept(base: string, imgs: seq<ImgTag>, join: UrlJoin)
    requires forall k | 0 <= k < |imgs| :: HasSrc(imgs[k])
    ensures |ImageRefs(base, imgs, join)| == |imgs|
    ensures forall k | 0 <= k < |imgs| :: [ImageRefs(base, imgs, join)[k]] == ImageEntry(base, imgs[k], join)
  {
    if imgs != [] {
      ImageRefsAllKept(base, imgs[1..], join);
    }
  }

  /** The alt text is the attribute with its surrounding whitespace removed;
      an absent or all-whitespace attribute gives "", never the "Missing" sentinel. */
  lemma ImageAltRule(img: ImgTag)
    ensures Trimmed(AltText(img))
    ensures img.alt.Some? ==> IsStripOf(img.alt.value, AltText(img))
    ensures img.alt.None? ==> AltText(img) == ""
    ensures img.alt.Some? && AllSpace(img.alt.value) ==> AltText(img) == ""
  {
  }

  // ---------------------------------------------------------------------
  // Links

  /** Counting is additive over concatenation. */
  lemma {:induction false} LinkCountsAppend(a: seq<string>, b: seq<string>, domain: string)
    ensures InternalCount(a + b, domain) == InternalCount(a, domain) + InternalCount(b, domain)
    ensures ExternalCount(a + b, domain) == ExternalCount(a, domain) + ExternalCount(b, domain)
  {
    if a != [] {
      assert (a + b)[1..] == a[1..] + b;
      LinkCountsAppend(a[1..], b, domain);
    } else {
      assert a + b == b;
    }
  }

  /** Every link bumps exactly one of the two counters. */
  lemma {:induction false} LinkPartition(links: seq<string>, domain: string)
    ensures InternalCount(links, domain) + ExternalCount(links, domain) == |links|
  {
    if links != [] {
      LinkPartition(links[1..], domain);
    }
  }

  /** A single href is counted as internal exactly when it contains the
      domain or starts with '/', and as external otherwise. */
  lemma OneLink(href: string, domain: string)
    ensures InternalCount([href], domain) == 1 <==> Contains(href, domain) || StartsWith(href, "/")
    ensures ExternalCount([href], domain) == 1 <==> !Contains(href, domain) && !StartsWith(href, "/")
  {
    assert [href][1..] == [];
  }

  /** A protocol-relative href ("//other.host/x") counts as internal whatever the domain. */
  lemma ProtocolRelativeIsInternal(href: string, domain: string)
    requires StartsWith(href, "//")
    ensures IsInternal(href, domain)
  {
  }

  /** The test is on text, not hosts: any href that mentions the domain
      anywhere, in its host, path or query string, counts as internal. */
  lemma DomainAnywhereIsInternal(p: string, domain: string, q: string)
    ensures IsInternal(p + domain + q, domain)
  {
    var href := p + domain + q;
    assert href[|p|..|p| + |domain|] == domain;
    assert OccursAt(href, domain, |p|);
  }

  /** For instance, a link to another host naming the domain in its query string. */
  lemma ForeignHostMentioningDomain()
    ensures IsInternal("https://other.org/?ref=example.com", "example.com")
  {
    assert OccursAt("https://other.org/?ref=example.com", "example.com", 23);
  }

  /** When every link passes the test, all of them are internal. */
  lemma {:induction false} AllInternal(links: seq<string>, domain: string)
    requires forall k | 0 <= k < |links| :: IsInternal(links[k], domain)
    ensures InternalCount(links, domain) == |links| && ExternalCount(links, domain) == 0
  {
    if links != [] {
      AllInternal(links[1..], domain);
    }
  }

  /** With an empty netloc every href contains the domain, so every link is internal. */
  lemma EmptyDomainAllInternal(links: seq<string>)
    ensures InternalCount(links, "") == |links| && ExternalCount(links, "") == 0
  {
    forall k | 0 <= k < |links| ensures IsInternal(links[k], "") {
      assert OccursAt(links[k], "", 0);
    }
    AllInternal(links, "");
  }

  // ---------------------------------------------------------------------
  // The whole crawl

  /** Every path reports the normalised URL, which carries a scheme. */
  lemma ResultUrl(url: string, fetch: Fetch, join: UrlJoin, netloc: NetLoc)
    ensures Crawl(url, fetch, join, netloc).url == NormalizeUrl(url)
    ensures HasScheme(Crawl(url, fetch, join, netloc).url)
  {
  }

  /** A request that raises leaves every field at its default, status 0
      included, except `error`, which carries the connection message. */
  lemma FailureKeepsDefaults(url: string, message: string, join: UrlJoin, netloc: NetLoc)
    ensures Crawl(url, Failure(message), join, netloc) ==
            Initial(NormalizeUrl(url)).(error := Some("Connection Error: " + message))
  {
  }

  /** A response other than 200 records status and load time and nothing else. */
  lemma NonOkKeepsDefaults(url: string, status: int, elapsed: real, doc: Document, join: UrlJoin, netloc: NetLoc)
    requires status != 200
    ensures var r := Crawl(url, Response(status, elapsed, doc), join, netloc);
      r.statusCode == status && r.loadTime == elapsed && r.error == None &&
      r.title == MISSING && r.metaDesc == MISSING &&
      r.h1 == [] && r.h2 == [] && r.images == [] &&
      r.internalLinks == 0 && r.externalLinks == 0 &&
      r.url == NormalizeUrl(url)
  {
  }

  /** On every path that does not raise, `error` stays None. */
  lemma ErrorOnlyOnFailure(url: string, fetch: Fetch, join: UrlJoin, netloc: NetLoc)
    ensures Crawl(url, fetch, join, netloc).error.Some? <==> fetch.Failure?
  {
  }

  /** On a 200 page the two link counters partition the anchors that carry an
      href, and the images list has at most one entry per <img>. */
  lemma OkCounts(url: string, elapsed: real, doc: Document, join: UrlJoin, netloc: NetLoc)
    ensures var r := Crawl(url, Response(200, elapsed, doc), join, netloc);
      r.internalLinks >= 0 && r.externalLinks >= 0 &&
      r.internalLinks + r.externalLinks == |Hrefs(doc.anchors)| &&
      |r.images| <= |doc.images|
  {
    LinkPartition(Hrefs(doc.anchors), netloc(NormalizeUrl(url)));
  }

  /** On a 200 page the fetch metrics are recorded, the heading texts are
      copied in document order, and the images list is the one `ImageRefs`
      builds from the page's <img> elements against the normalised URL. */
  lemma OkFields(url: string, elapsed: real, doc: Document, join: UrlJoin, netloc: NetLoc)
    ensures var r := Crawl(url, Response(200, elapsed, doc), join, netloc);
      r.url == NormalizeUrl(url) && r.statusCode == 200 && r.loadTime == elapsed && r.error == None &&
      r.h1 == doc.h1 && r.h2 == doc.h2 &&
      r.images == ImageRefs(NormalizeUrl(url), doc.images, join)
  {
  }

  /** The title is "Missing" unless the page has a title with a non-empty
      string; then it is that string stripped, so a whitespace-only title
      gives "" rather than "Missing". The meta description follows the same
      rule on the content of the first description meta. */
  lemma OkTitleAndMeta(url: string, elapsed: real, doc: Document, join: UrlJoin, netloc: NetLoc)
    ensures var r := Crawl(url, Response(200, elapsed, doc), join, netloc);
      (!UsableTitle(doc.title) ==> r.title == MISSING) &&
      (UsableTitle(doc.title) ==> IsStripOf(doc.title.value.str.value, r.title)) &&
      (UsableTitle(doc.title) && AllSpace(doc.title.value.str.value) ==> r.title == "") &&
      (!UsableMeta(FindDescription(doc.metas)) ==> r.metaDesc == MISSING) &&
      (UsableMeta(FindDescription(doc.metas)) ==>
         IsStripOf(FindDescription(doc.metas).value.content.value, r.metaDesc))
  {
  }
}
