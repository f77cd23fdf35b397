/** scraper.py: `Scraper`, a cache-first single-page scraper. A miss fetches
    the page, parses it, and builds either the texts of the elements a CSS
    selector matches or the targets of the page's links; only successful
    results are kept in the cache, keyed by `(url, selector)`. */
module PyScraper {
  import opened Wrappers
  import opened Markup
  import opened PyText

  /** `Scraper(cache_size=100, cache_ttl=600)`. */
  const DefaultCacheSize := 100
  const DefaultCacheTtl := 600

  /** The two prefixes of the `{"error": ...}` result. */
  const ClientErrorPrefix := "An error occurred: "
  const UnexpectedErrorPrefix := "An unexpected error occurred: "

  /** What `str()` gives for the ValueError the cache raises when it cannot
      hold even one entry. */
  const ValueTooLarge := "value too large"

  /** Python truthiness of the `selector` argument: `None` and `""` are false. */
  predicate Truthy(selector: Option<string>)
    ensures selector == None ==> !Truthy(selector)
    ensures selector == Some("") ==> !Truthy(selector)
    ensures selector.Some? && |selector.value| >= 1 ==> Truthy(selector)
  {
    selector.Some? && selector.value != ""
  }

  /** The cache key `(url, selector)`; `None` and `Some("")` are different keys. */
  type CacheKey = (string, Option<string>)

  /** The result dictionaries: `{url, selector, elements}`, `{url, links}` and
      `{error}`. */
  datatype ScrapeResult =
    | Elements(url: string, selector: string, elements: seq<string>)
    | Links(url: string, links: seq<string>)
    | Error(message: string)

  /** An exception raised while serving a miss, with its `str()`: an
      `aiohttp.ClientError` or any other `Exception`. A `BaseException` that
      is not an `Exception` is not caught and is not modelled. */
  datatype Raised = ClientError(description: string) | OtherException(description: string)

  /** A response of `session.get(url)`: its status, the `str()` of the
      `ClientResponseError` that `raise_for_status()` raises for it, and the
      outcome of `await response.text()`. */
  datatype Response = Response(status: int, statusError: string, text: Result<string, Raised>)

  /** The collaborators of a miss, as oracles: the network (opening a
      `ClientSession` and sending the GET), BeautifulSoup's `html.parser`
      (which raises `ParserRejectedMarkup` on markup it cannot parse), and its
      CSS selector engine `soup.select`. */
  datatype Web = Web(
    get: string -> Result<Response, Raised>,
    parse: string -> Result<Document, Raised>,
    select: (Document, string) -> Result<seq<Element>, Raised>)

  /** `raise_for_status()` rejects every status from 400 on: every client and
      server error, and no success or redirect. */
  predicate RaisesForStatus(status: int)
    ensures 400 <= status < 600 ==> RaisesForStatus(status)
    ensures 200 <= status < 400 ==> !RaisesForStatus(status)
  {
    status >= 400
  }

  predicate HasPrefix(s: string, prefix: string)
  {
    |prefix| <= |s| && s[..|prefix|] == prefix
  }

  /** The two `except` clauses: a client error and anything else. The
      message tells the two apart by its prefix, and the exception's
      description follows the prefix. */
  function Failed(e: Raised): (r: ScrapeResult)
    ensures r.Error?
    ensures HasPrefix(r.message, ClientErrorPrefix) <==> e.ClientError?
    ensures HasPrefix(r.message, UnexpectedErrorPrefix) <==> e.OtherException?
    ensures e.ClientError? ==> r.message[|ClientErrorPrefix|..] == e.description
    ensures e.OtherException? ==> r.message[|UnexpectedErrorPrefix|..] == e.description
  {
    assert ClientErrorPrefix[3] != UnexpectedErrorPrefix[3];
    match e
    case ClientError(d) => Error(ClientErrorPrefix + d)
    case OtherException(d) => Error(UnexpectedErrorPrefix + d)
  }

  /** `[element.text.strip() for element in matched]`: one stripped text per
      matched element, in match order. */
  function StrippedTexts(matched: seq<Element>): (r: seq<string>)
    ensures |r| == |matched|
    ensures forall i | 0 <= i < |matched| :: r[i] == Strip(Text(matched[i]))
    decreases |matched|
  {
    if |matched| == 0 then [] else [Strip(Text(matched[0]))] + StrippedTexts(matched[1..])
  }

  /** An element `soup.find_all("a", href=True)` yields: an anchor carrying an
      `href` attribute, whatever its value. */
  predicate HasHref(e: Element)
  {
    e.tag == "a" && "href" in e.attrs
  }

  /** `s` is the `href` of some anchor of `doc`. */
  predicate IsHrefOf(doc: Document, s: string)
  {
    exists i | 0 <= i < |doc| :: HasHref(doc[i]) && s == doc[i].attrs["href"]
  }

  /** `[a["href"] for a in soup.find_all("a", href=True)]`. */
  function Hrefs(doc: Document): (r: seq<string>)
    ensures |r| <= |doc|
    decreases |doc|
  {
    if |doc| == 0 then []
    else
      var rest := Hrefs(doc[1..]);
      if HasHref(doc[0]) then [doc[0].attrs["href"]] + rest else rest
  }

  /** Every link is the `href` of some anchor of the document. */
  lemma {:induction false} HrefsFromAnchors(doc: Document)
    ensures forall j | 0 <= j < |Hrefs(doc)| :: IsHrefOf(doc, Hrefs(doc)[j])
    decreases |doc|
  {
    if |doc| > 0 {
      HrefsFromAnchors(doc[1..]);
      HrefOfTail(doc, Hrefs(doc[1..]));
      if HasHref(doc[0]) {
        assert IsHrefOf(doc, doc[0].attrs["href"]);
      }
    }
  }

  lemma HrefOfTail(doc: Document, rest: seq<string>)
    requires |doc| > 0
    requires forall j | 0 <= j < |rest| :: IsHrefOf(doc[1..], rest[j])
    ensures forall j | 0 <= j < |rest| :: IsHrefOf(doc, rest[j])
  {
    forall j | 0 <= j < |rest|
      ensures IsHrefOf(doc, rest[j])
    {
      assert IsHrefOf(doc[1..], rest[j]);
      var i :| 0 <= i < |doc[1..]| && HasHref(doc[1..][i]) && rest[j] == doc[1..][i].attrs["href"];
      assert doc[i + 1] == doc[1..][i];
    }
  }

  /** The links of a document are those of its first part followed by those of
      its second: document order, with duplicates kept. */
  lemma {:induction false} HrefsAppend(a: Document, b: Document)
    ensures Hrefs(a + b) == Hrefs(a) + Hrefs(b)
    decreases |a|
  {
    if |a| == 0 {
      assert a + b == b;
    } else {
      assert (a + b)[0] == a[0];
      assert (a + b)[1..] == a[1..] + b;
      HrefsAppend(a[1..], b);
    }
  }

  /** Every anchor with an `href` contributes its value exactly at its place:
      after the links of the elements before it and before those after it. */
  lemma HrefsAt(doc: Document, i: int)
    requires 0 <= i < |doc|
    ensures Hrefs(doc) ==
      Hrefs(doc[..i]) + (if HasHref(doc[i]) then [doc[i].attrs["href"]] else []) + Hrefs(doc[i + 1..])
  {
    var pre, post := doc[..i], doc[i + 1..];
    var own: seq<string> := if HasHref(doc[i]) then [doc[i].attrs["href"]] else [];
    SplitAround(doc, i);
    HrefsAppend(pre, [doc[i]] + post);
    HrefsCons(doc[i], post);
    AppendAssociative(Hrefs(pre), own, Hrefs(post));
  }

  /** Kept apart from `HrefsAt`: sequence extensionality in its context is
      costly for the solver. */
  lemma SplitAround(doc: Document, i: int)
    requires 0 <= i < |doc|
    ensures doc == doc[..i] + ([doc[i]] + doc[i + 1..])
  {
  }

  lemma AppendAssociative(a: seq<string>, b: seq<string>, c: seq<string>)
    ensures a + (b + c) == a + b + c
  {
  }

  /** An element in front contributes its own link, if any, before the rest. */
  lemma HrefsCons(e: Element, rest: Document)
    ensures Hrefs([e] + rest) == (if HasHref(e) then [e.attrs["href"]] else []) + Hrefs(rest)
  {
    assert ([e] + rest)[1..] == rest;
  }

  /** A value that may be cached under `key`: a successful result for the key's
      URL whose shape is the one the key's selector calls for. */
  predicate Fits(key: CacheKey, v: ScrapeResult)
  {
    if Truthy(key.1) then v.Elements? && v.url == key.0 && v.selector == key.1.value
    else v.Links? && v.url == key.0
  }

  /** The miss path of `scrape_website` up to the store: fetch, check the
      status, read the text, parse, and build the result for the selector; any
      exception on the way becomes an error result. */
  function Retrieve(url: string, selector: Option<string>, web: Web): (r: ScrapeResult)
    ensures r.Error? ==> HasPrefix(r.message, ClientErrorPrefix) || HasPrefix(r.message, UnexpectedErrorPrefix)
    ensures !r.Error? ==> Fits((url, selector), r)
  {
    match web.get(url)
    case Err(e) => Failed(e)
    case Ok(response) =>
      if RaisesForStatus(response.status) then Failed(ClientError(response.statusError))
      else
        match response.text
        case Err(e) => Failed(e)
        case Ok(content) =>
          match web.parse(content)
          case Err(e) => Failed(e)
          case Ok(soup) =>
            if Truthy(selector) then
              match web.select(soup, selector.value)
              case Err(e) => Failed(e)
              case Ok(matched) => Elements(url, selector.value, StrippedTexts(matched))
            else
              Links(url, Hrefs(soup))
  }

  /** The page text of a fetch that raised nothing, if there is one. */
  function PageText(url: string, web: Web): Option<string>
  {
    match web.get(url)
    case Err(_) => None
    case Ok(response) =>
      if RaisesForStatus(response.status) || response.text.Err? then None else Some(response.text.value)
  }

  /** The parsed page of a fetch and parse that raised nothing, if there is
      one. */
  function Page(url: string, web: Web): Option<Document>
  {
    match PageText(url, web)
    case None => None
    case Some(content) => if web.parse(content).Ok? then Some(web.parse(content).value) else None
  }

  /** A miss fails exactly when fetching, reading or parsing the page raises,
      or when a truthy selector is rejected by the selector engine; the
      message names the exception class of what raised. */
  lemma RetrieveFails(url: string, selector: Option<string>, web: Web)
    ensures Retrieve(url, selector, web).Error? <==>
      Page(url, web).None? || (Truthy(selector) && web.select(Page(url, web).value, selector.value).Err?)
    ensures web.get(url).Ok? && RaisesForStatus(web.get(url).value.status) ==>
      Retrieve(url, selector, web) == Error(ClientErrorPrefix + web.get(url).value.statusError)
    ensures web.get(url).Err? ==> Retrieve(url, selector, web) == Failed(web.get(url).error)
    ensures web.get(url).Ok? && !RaisesForStatus(web.get(url).value.status) && web.get(url).value.text.Err? ==>
      Retrieve(url, selector, web) == Failed(web.get(url).value.text.error)
    ensures PageText(url, web).Some? && web.parse(PageText(url, web).value).Err? ==>
      Retrieve(url, selector, web) == Failed(web.parse(PageText(url, web).value).error)
    ensures Page(url, web).Some? && Truthy(selector) && web.select(Page(url, web).value, selector.value).Err? ==>
      Retrieve(url, selector, web) == Failed(web.select(Page(url, web).value, selector.value).error)
  {
  }

  /** With a truthy selector a successful miss gives one stripped text per
      matched element, in match order. */
  lemma RetrieveElements(url: string, selector: string, web: Web, matched: seq<Element>)
    requires selector != "" && Page(url, web).Some?
    requires web.select(Page(url, web).value, selector) == Ok(matched)
    ensures var r := Retrieve(url, Some(selector), web);
      r.Elements? && r.url == url && r.selector == selector && |r.elements| == |matched| &&
      forall i | 0 <= i < |matched| :: r.elements[i] == Strip(Text(matched[i]))
  {
  }

  /** With no selector or an empty one a successful miss gives the links of
      the parsed page, and the selector engine is never consulted. */
  lemma RetrieveLinks(url: string, selector: Option<string>, web: Web)
    requires !Truthy(selector) && Page(url, web).Some?
    ensures Retrieve(url, selector, web) == Links(url, Hrefs(Page(url, web).value))
  {
  }

  /** `None` and `""` give the same result, yet they are different cache keys. */
  lemma NoneAndEmptySelector(url: string, web: Web)
    ensures Retrieve(url, None, web) == Retrieve(url, Some(""), web)
    ensures (url, None) != (url, Some(""))
  {
  }

  /** `after` is `before` once `v` has been stored under `key` in a cache of
      the given capacity: the new entry is present, every other entry is an
      old one unchanged, and exactly one old entry is evicted when, and only
      when, the cache was full. */
  ghost predicate StoredUnder(before: map<CacheKey, ScrapeResult>, after: map<CacheKey, ScrapeResult>,
                              key: CacheKey, v: ScrapeResult, capacity: int)
  {
    && key in after && after[key] == v
    && (forall k | k in after && k != key :: k in before && after[k] == before[k])
    && (|before| < capacity ==> after == before[key := v])
    && (|before| >= capacity ==> exists victim | victim in before :: after == (before - {victim})[key := v])
    && |after| <= capacity
  }

  class Scraper {
    /** `self.cache`: a `TTLCache(maxsize=cache_size, ttl=cache_ttl)`. */
    var cache: map<CacheKey, ScrapeResult>
    const maxSize: int
    const ttl: int
    /** The URLs the network has been asked for, in order. */
    ghost var requests: seq<string>

    /** The cache never holds more than `maxSize` entries, and only
        successful results of the shape their key calls for. */
    ghost predicate Valid()
      reads this
    {
      && (|cache| <= maxSize || cache == map[])
      && forall k | k in cache :: Fits(k, cache[k])
    }

    constructor (cacheSize: int := DefaultCacheSize, cacheTtl: int := DefaultCacheTtl)
      ensures Valid()
      ensures cache == map[] && maxSize == cacheSize && ttl == cacheTtl && requests == []
    {
      cache := map[];
      maxSize := cacheSize;
      ttl := cacheTtl;
      requests := [];
    }

    /** `scrape_website(url, selector)`. */
    method ScrapeWebsite(url: string, selector: Option<string>, web: Web) returns (r: ScrapeResult)
      requires Valid()
      modifies this
      ensures Valid()
      ensures (url, selector) in old(cache) ==>
        r == old(cache)[(url, selector)] && cache == old(cache) && requests == old(requests)
      ensures (url, selector) !in old(cache) ==> requests == old(requests) + [url]
      ensures (url, selector) !in old(cache) && Retrieve(url, selector, web).Error? ==>
        r == Retrieve(url, selector, web) && cache == old(cache)
      ensures (url, selector) !in old(cache) && !Retrieve(url, selector, web).Error? && maxSize < 1 ==>
        r == Error(UnexpectedErrorPrefix + ValueTooLarge) && cache == old(cache)
      ensures (url, selector) !in old(cache) && !Retrieve(url, selector, web).Error? && maxSize >= 1 ==>
        r == Retrieve(url, selector, web) && StoredUnder(old(cache), cache, (url, selector), r, maxSize)
    {
      var key := (url, selector);
      if key in cache {
        return cache[key];
      }
      requests := requests + [url];
      r := Retrieve(url, selector, web);
      if !r.Error? {
        if maxSize < 1 {
          r := Error(UnexpectedErrorPrefix + ValueTooLarge);
        } else {
          if |cache| >= maxSize {
            var victim :| victim in cache;
            cache := cache - {victim};
          }
          cache := cache[key := r];
        }
      }
    }
  }

  /** Two calls with the same key: when the first fetched and succeeded, the
      second is answered from the cache with the same result and no fetch. */
  method ScrapeTwice(s: Scraper, url: string, selector: Option<string>, web1: Web, web2: Web)
    returns (first: ScrapeResult, second: ScrapeResult)
    requires s.Valid()
    modifies s
    ensures s.Valid()
    ensures (url, selector) in old(s.cache) ==>
      first == second == old(s.cache)[(url, selector)] && s.requests == old(s.requests)
    ensures (url, selector) !in old(s.cache) && !first.Error? ==>
      second == first && s.requests == old(s.requests) + [url]
  {
    first := s.ScrapeWebsite(url, selector, web1);
    second := s.ScrapeWebsite(url, selector, web2);
  }

  /** `(url, None)` and `(url, "")` are separate entries: after a call with no
      selector, a call with the empty selector still goes to the network. */
  method ScrapeNoneThenEmpty(s: Scraper, url: string, web1: Web, web2: Web)
    returns (first: ScrapeResult, second: ScrapeResult)
    requires s.Valid()
    modifies s
    ensures s.Valid()
    ensures (url, None) !in old(s.cache) && (url, Some("")) !in old(s.cache) ==>
      s.requests == old(s.requests) + [url, url]
  {
    first := s.ScrapeWebsite(url, None, web1);
    second := s.ScrapeWebsite(url, Some(""), web2);
  }
}
