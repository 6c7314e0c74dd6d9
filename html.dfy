/**
 * The parsed page as the crawler sees it. The HTML parser itself is not
 * modelled: a Document lists, in document order, the elements and
 * attributes that crawl_url reads, and two lookups of the parsed tree
 * (the first description meta, the anchors that carry an href) are
 * modelled as functions over those lists.
 */
module Html {
  import opened Wrappers

  /** The first <title> element; `str` is its `.string`, which is None when
      the element does not hold exactly one string. */
  datatype TitleTag = TitleTag(str: Option<string>)

  /** A <meta> element's `name` and `content` attributes. */
  datatype MetaTag = MetaTag(name: Option<string>, content: Option<string>)

  /** An <img> element's `src` and `alt` attributes. */
  datatype ImgTag = ImgTag(src: Option<string>, alt: Option<string>)

  /** An <a> element's `href` attribute. */
  datatype AnchorTag = AnchorTag(href: Option<string>)

  /** `h1` and `h2` hold the `get_text(strip=True)` of each such heading. */
  datatype Document = Document(
    title: Option<TitleTag>,
    metas: seq<MetaTag>,
    h1: seq<string>,
    h2: seq<string>,
    images: seq<ImgTag>,
    anchors: seq<AnchorTag>)

  predicate IsDescription(m: MetaTag)
  {
    m.name == Some("description")
  }

  /** `soup.find('meta', attrs={'name': 'description'})`: the first meta
      element whose name attribute is exactly "description", if any. */
  function FindDescription(metas: seq<MetaTag>): (r: Option<MetaTag>)
    ensures r.None? <==> forall k | 0 <= k < |metas| :: !IsDescription(metas[k])
    ensures r.Some? ==> exists k :: 0 <= k < |metas| && metas[k] == r.value && IsDescription(metas[k]) &&
                                    forall j | 0 <= j < k :: !IsDescription(metas[j])
  {
    if metas == [] then None
    else if IsDescription(metas[0]) then Some(metas[0])
    else
      var r := FindDescription(metas[1..]);
      assert forall k | 1 <= k < |metas| :: metas[k] == metas[1..][k - 1];
      assert r.Some? ==> exists k :: 1 <= k < |metas| && metas[k] == r.value && IsDescription(metas[k]) &&
                                     forall j | 0 <= j < k :: !IsDescription(metas[j]);
      r
  }

  /** `soup.find_all('a', href=True)`, read through `link['href']`: the href
      of every anchor that has one (possibly empty), in document order. */
  function Hrefs(anchors: seq<AnchorTag>): (r: seq<string>)
    ensures |r| <= |anchors|
    ensures forall h :: h in r <==> AnchorTag(Some(h)) in anchors
    ensures (forall k | 0 <= k < |anchors| :: anchors[k].href.Some?) ==> |r| == |anchors|
  {
    if anchors == [] then []
    else
      var rest := Hrefs(anchors[1..]);
      assert anchors == [anchors[0]] + anchors[1..];
      match anchors[0].href
      case Some(h) => [h] + rest
      case None => rest
  }

  /** The links keep document order and multiplicity: the hrefs of `a + b`
      are those of `a` followed by those of `b`. */
  lemma {:induction false} HrefsAppend(a: seq<AnchorTag>, b: seq<AnchorTag>)
    ensures Hrefs(a + b) == Hrefs(a) + Hrefs(b)
  {
    if a == [] {
      assert a + b == b;
    } else {
      calc {
        Hrefs(a + b);
        { assert (a + b)[0] == a[0] && (a + b)[1..] == a[1..] + b; }
        Hrefs([a[0]]) + Hrefs(a[1..] + b);
        { HrefsAppend(a[1..], b); }
        Hrefs([a[0]]) + (Hrefs(a[1..]) + Hrefs(b));
        (Hrefs([a[0]]) + Hrefs(a[1..])) + Hrefs(b);
        { assert [a[0]][1..] == []; }
        Hrefs(a) + Hrefs(b);
      }
    }
  }

  /** One anchor contributes its href when it has one, and nothing otherwise. */
  lemma HrefsSingle(h: string)
    ensures Hrefs([AnchorTag(Some(h))]) == [h]
    ensures Hrefs([AnchorTag(None)]) == []
  {
    assert [AnchorTag(Some(h))][1..] == [] && [AnchorTag(None)][1..] == [];
  }
}
