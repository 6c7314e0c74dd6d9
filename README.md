# Smart-Spider crawl, modelled in Dafny

Smart-Spider audits one web page for technical SEO signals. Its one piece
of logic is `crawl_url` (`src/crawler.py`): it normalises the URL, builds a
results dictionary of defaults, fetches the page once, and — for a 200
response — reads the title, the meta description, the h1/h2 texts, the
images (absolute `src` plus stripped `alt`) and counts the links as internal
or external. A request that raises is reported through the `error` field.

This project models what `crawl_url` does after the HTTP call:

- `wrappers.dfy` — `Option`, for attributes and elements that may be absent.
- `text.dfy` (module `Text`) — the Python string operations the crawler uses:
  `startswith`, the substring test `in`, and `strip()` (with the exact
  whitespace set of `str.isspace()`, and CPython's forward-then-backward scan).
- `html.dfy` (module `Html`) — the parsed page as a `Document`: the first
  `<title>`'s `.string`, the `<meta>` name/content pairs, the h1/h2 texts,
  the `<img>` src/alt attributes and the `<a>` href attributes, in document
  order; `FindDescription` is `soup.find('meta', attrs={'name': 'description'})`
  and `Hrefs` is `soup.find_all('a', href=True)` read through `link['href']`.
- `crawler.dfy` (module `Crawler`) — the results dictionary as the record
  `Results`; the request outcome as `Fetch` (`Failure(message)` when
  `requests.get` raised, `Response(status, elapsed, doc)` otherwise);
  `Crawl`, a function giving the dictionary `crawl_url` returns; and
  `CrawlUrl`, the method that builds it step by step as the source does,
  with the image-appending loop (`AppendImages`) and the link-counting loop
  (`CountLinks`), each proved against `Crawl`'s pieces.

The dictionary is created inside `crawl_url`, mutated only there and then
returned, so nothing else can observe it while it changes. It is therefore
modelled as a record value that the method reassigns one field at a time.

`urljoin(url, src)` and `urlparse(url).netloc` are library calls whose
internals are not modelled: they are parameters of type
`(string, string) -> string` and `string -> string`. Each h1/h2 entry is
taken as the already computed `get_text(strip=True)` of the heading.

Two consequences of the code are worth stating plainly:

- a whitespace-only title (or description) becomes `""`, not `"Missing"`,
  because the truthiness test runs before `strip()`;
- a link is internal when the raw href contains the page's netloc anywhere,
  or starts with `/`; no URL is parsed and no host is compared.

`crawl_url` computes no score, and it keeps every h2 text and counts every
link.

## Model

| member | source | states |
|---|---|---|
| `Text.Contains` | src/crawler.py:75 | `domain in href` holds exactly when the domain occurs as a contiguous substring at some index of the href; the empty string occurs in every string |
| `Text.Strip` | src/crawler.py:64 | `strip()` returns the slice of its input between an all-whitespace prefix and an all-whitespace suffix, whose own ends are not whitespace; it is empty exactly when the input is all whitespace |
| `Text.StripUnique` | src/crawler.py:64 | only one slice fits that description, so it defines `strip()` completely |
| `Text.StripIdempotent` | src/crawler.py:64 | stripping a stripped string changes nothing |
| `Html.FindDescription` | src/crawler.py:52 | the lookup finds nothing exactly when no meta is named "description"; otherwise it returns the first such meta in document order |
| `Html.Hrefs` | src/crawler.py:71 | the links are the hrefs of the anchors that have one: a string is among them exactly when some anchor carries it as its href, there are no more links than anchors, and as many when every anchor has an href |
| `Html.HrefsAppend` | src/crawler.py:71 | the links keep document order and multiplicity: the hrefs of anchors `a + b` are those of `a` followed by those of `b` |
| `Html.HrefsSingle` | src/crawler.py:71-74 | an anchor with an href contributes exactly that href, one without contributes nothing |
| `Crawler.NormalizeUrl` | src/crawler.py:13-14 | the URL always starts with `http://` or `https://` afterwards; one that already did is unchanged, any other gets `https://` in front |
| `Crawler.NormalizeIdempotent` | src/crawler.py:13-14 | normalising twice is normalising once |
| `Crawler.CrawlUrl` | src/crawler.py:6-83 | the step-by-step method returns exactly the dictionary `Crawl` describes, on every path |
| `Crawler.ParsePage` | src/crawler.py:45-78 | on a fresh dictionary, the title, description, headings, images and link counters are set as the 200 branch prescribes |
| `Crawler.AppendImages` | src/crawler.py:61-68 | the loop appends to the existing images list exactly the entries `ImageRefs` gives, in order, and touches no other field |
| `Crawler.CountLinks` | src/crawler.py:73-78 | the loop adds `InternalCount` to internal_links and `ExternalCount` to external_links and touches no other field |
| `Crawler.ImageRefsAppend` | src/crawler.py:61-68 | the images list keeps document order: the entries for the images `a + b` are those for `a` followed by those for `b` |
| `Crawler.ImageRefsStep` | src/crawler.py:62-68 | one iteration adds the current image's entry, or nothing when its src is absent or empty |
| `Crawler.ImageRefsNoneKept` | src/crawler.py:65 | images without a non-empty src give an empty list |
| `Crawler.ImageRefsAllKept` | src/crawler.py:62-68 | when every image has a src, there is one entry per image and the k-th entry is `{src: urljoin(url, src_k), alt: stripped alt_k}` |
| `Crawler.ImageAltRule` | src/crawler.py:64 | the alt text is the attribute stripped of surrounding whitespace, `""` when the attribute is absent or all whitespace; no sentinel is substituted |
| `Crawler.LinkCountsAppend` | src/crawler.py:73-78 | both counters are additive over concatenated link lists |
| `Crawler.LinkPartition` | src/crawler.py:73-78 | internal plus external equals the number of links: each link bumps exactly one counter |
| `Crawler.OneLink` | src/crawler.py:75-78 | a single href is internal exactly when it contains the domain or starts with `/`, and external exactly when it does neither |
| `Crawler.ProtocolRelativeIsInternal` | src/crawler.py:75 | a protocol-relative href `//other.host/x` counts as internal whatever the domain |
| `Crawler.DomainAnywhereIsInternal` | src/crawler.py:75 | every href that contains the domain anywhere (host, path or query) counts as internal, whatever surrounds it |
| `Crawler.ForeignHostMentioningDomain` | src/crawler.py:75 | a link to another host that mentions the domain in its query string counts as internal |
| `Crawler.AllInternal` | src/crawler.py:73-78 | when every link passes the test, internal_links is the number of links and external_links is 0 |
| `Crawler.EmptyDomainAllInternal` | src/crawler.py:72-78 | with an empty netloc every link counts as internal and none as external |
| `Crawler.ResultUrl` | src/crawler.py:16-17 | the reported URL is the normalised one and carries a scheme |
| `Crawler.FailureKeepsDefaults` | src/crawler.py:80-81 | when the request raises, the result is the default dictionary (status 0, "Missing" title and description, empty lists, zero counters) with `error` set to `"Connection Error: " + message` |
| `Crawler.NonOkKeepsDefaults` | src/crawler.py:40-44 | a non-200 response records status code and load time, leaves `error` unset, both texts "Missing", every list empty and both counters 0 |
| `Crawler.ErrorOnlyOnFailure` | src/crawler.py:27 | `error` is set exactly when the request raised |
| `Crawler.OkCounts` | src/crawler.py:71-78 | on a 200 page both counters are non-negative and add up to the number of anchors with an href; the images list is no longer than the list of `<img>` elements |
| `Crawler.OkFields` | src/crawler.py:40-68 | on a 200 page the status and load time are recorded, `error` stays unset, h1 and h2 are the heading texts in document order, and images is exactly `ImageRefs` of the page's `<img>` elements against the normalised URL |
| `Crawler.OkTitleAndMeta` | src/crawler.py:48-54 | the title is "Missing" unless a title with a non-empty string exists, in which case it is that string stripped (so `""` for a whitespace-only title); the description follows the same rule on the first description meta's content |

## Left out

- The HTTP request, its headers and timeout, and the clock (`src/crawler.py:32-38`): the outcome of `requests.get` is the input `Fetch`.
- The load time's computation and `round(..., 4)`: it is carried as an opaque `real` and nothing is proved about it; its default is the integer 0 in the source and 0.0 here.
- HTML parsing: the `Document` record stands for BeautifulSoup's tree; tag-name matching and attribute parsing are not modelled.
- `urljoin`, `urlparse(...).netloc` and `get_text(strip=True)`: parameters and inputs, not re-specified.
- Exceptions other than `requests.exceptions.RequestException` propagate out of `crawl_url` in the source; the model has no such path.
- `src/app.py`, `src/utils.py` and `src/database.py` (the dashboard, the AI captioning helper, and the history store) are not part of this model.
