/** Link rewriting of src/routes.rs:283-321 and the size bound of src/proxy.rs:57-73. */
module PypiLinks {
  import opened Basics
  import opened CanonicalPath
  import opened PypiHtml

  /**
   * What the code asks of the foreign URL type. `port` is the effective port; `userinfo` is
   * a non-empty user name or any password.
   */
  datatype Url = Url(
    scheme: Bytes, host: Option<Bytes>, port: Option<nat>, userinfo: bool,
    path: Bytes, query: bool, fragment: Option<Bytes>)

  /** The upstream origins and public origin of one deployment; `parse` is `Url::parse`. */
  datatype Site = Site(files: Url, simple: Url, origin: Bytes, parse: Bytes -> Option<Url>)

  // "files.pythonhosted.org"
  const FILES_HOST: Bytes := [0x66, 0x69, 0x6c, 0x65, 0x73, 0x2e, 0x70, 0x79, 0x74, 0x68, 0x6f, 0x6e,
                              0x68, 0x6f, 0x73, 0x74, 0x65, 0x64, 0x2e, 0x6f, 0x72, 0x67]
  // "pypi.org"
  const PYPI_HOST: Bytes := [0x70, 0x79, 0x70, 0x69, 0x2e, 0x6f, 0x72, 0x67]
  // "/simple/"
  const SIMPLE: Bytes := [0x2f, 0x73, 0x69, 0x6d, 0x70, 0x6c, 0x65, 0x2f]
  // "/pypi/"
  const PYPI: Bytes := [0x2f, 0x70, 0x79, 0x70, 0x69, 0x2f]
  // "/pypi/files/"
  const PYPI_FILES: Bytes := [0x2f, 0x70, 0x79, 0x70, 0x69, 0x2f, 0x66, 0x69, 0x6c, 0x65, 0x73, 0x2f]

  predicate StartsWith(s: Bytes, prefix: Bytes) {
    prefix <= s
  }

  /** `matches_origin`. */
  predicate MatchesOrigin(url: Url, base: Url) {
    url.scheme == base.scheme && url.host == base.host && url.port == base.port
  }

  function FragmentText(fragment: Option<Bytes>): Bytes {
    if fragment.Some? then [HASH] + fragment.value else []
  }

  /** `rewrite_pypi_href`. Changing scheme, host and port leaves the path as parsed. */
  ghost function RewriteHref(site: Site, href: Bytes): Bytes {
    match site.parse(href)
    case Some(url) =>
      if MatchesOrigin(url, site.files) || url.host == Some(FILES_HOST) then
        if url.userinfo || url.query || RewritePath(url.path).None? then href
        else site.origin + PYPI_FILES + RewritePath(url.path).value + FragmentText(url.fragment)
      else if (MatchesOrigin(url, site.simple) || url.host == Some(PYPI_HOST)) && StartsWith(url.path, SIMPLE)
              && !url.userinfo && !url.query && url.fragment.None? && RewritePath(url.path).Some? then
        site.origin + PYPI + RewritePath(url.path).value
      else href
    case None =>
      if StartsWith(href, SIMPLE) && RewritePath(href).Some? then site.origin + PYPI + RewritePath(href).value
      else href
  }

  ghost function Rewriter(site: Site): Bytes -> Bytes {
    href => RewriteHref(site, href)
  }

  predicate QuoteFree(s: Bytes) {
    DOUBLE !in s && SINGLE !in s
  }

  /** Every quote character of `s` is in `href`. */
  predicate QuotesFrom(s: Bytes, href: Bytes) {
    (DOUBLE in s ==> DOUBLE in href) && (SINGLE in s ==> SINGLE in href)
  }

  lemma QuotesFromAppend(a: Bytes, b: Bytes, href: Bytes)
    requires QuotesFrom(a, href) && QuotesFrom(b, href)
    ensures QuotesFrom(a + b, href)
  {
  }

  /** Parsing a link shows no quote that is not written in it. */
  ghost predicate ParseKeepsQuotes(parse: Bytes -> Option<Url>) {
    forall href: Bytes :: parse(href).Some? ==>
      QuotesFrom(parse(href).value.path, href) && QuotesFrom(FragmentText(parse(href).value.fragment), href)
  }

  lemma PathKeepsQuotes(path: Bytes, href: Bytes)
    requires RewritePath(path).Some? && QuotesFrom(path, href)
    ensures QuotesFrom(RewritePath(path).value, href)
  {
    if DOUBLE in RewritePath(path).value {
      NoNewQuote(path, DOUBLE);
    }
    if SINGLE in RewritePath(path).value {
      NoNewQuote(path, SINGLE);
    }
  }

  /** Root-relative links need no hypothesis about the URL library. */
  lemma RootRelativeIsGentle(site: Site, href: Bytes)
    requires QuoteFree(site.origin) && href != [] && site.parse(href).None?
    ensures RewriteHref(site, href) != [] && QuotesFrom(RewriteHref(site, href), href)
  {
    if StartsWith(href, SIMPLE) && RewritePath(href).Some? {
      PathKeepsQuotes(href, href);
      QuotesFromAppend(site.origin, PYPI, href);
      QuotesFromAppend(site.origin + PYPI, RewritePath(href).value, href);
    }
  }

  lemma ParsedIsGentle(site: Site, href: Bytes)
    requires QuoteFree(site.origin) && href != [] && site.parse(href).Some? && ParseKeepsQuotes(site.parse)
    ensures RewriteHref(site, href) != [] && QuotesFrom(RewriteHref(site, href), href)
  {
    var url := site.parse(href).value;
    var tail := FragmentText(url.fragment);
    if RewritePath(url.path).Some? {
      var path := RewritePath(url.path).value;
      PathKeepsQuotes(url.path, href);
      LinkKeepsQuotes(site.origin, PYPI, path, [], href);
      LinkKeepsQuotes(site.origin, PYPI_FILES, path, tail, href);
      assert site.origin + PYPI + path + [] == site.origin + PYPI + path;
    }
  }

  lemma LinkKeepsQuotes(origin: Bytes, prefix: Bytes, path: Bytes, tail: Bytes, href: Bytes)
    requires QuoteFree(origin) && QuoteFree(prefix) && QuotesFrom(path, href) && QuotesFrom(tail, href)
    ensures QuotesFrom(origin + prefix + path + tail, href)
  {
  }

  lemma RewriterIsGentle(site: Site)
    requires QuoteFree(site.origin) && ParseKeepsQuotes(site.parse)
    ensures Gentle(Rewriter(site))
  {
    var f := Rewriter(site);
    forall v: Bytes | v != [] ensures f(v) != [] && QuotesFrom(f(v), v) {
      if site.parse(v).None? {
        RootRelativeIsGentle(site, v);
      } else {
        ParsedIsGentle(site, v);
      }
    }
  }

  /** Every link that changes leads to a path the proxy itself accepts. */
  lemma EmittedPathIsCanonical(site: Site, href: Bytes) returns (path: Bytes, tail: Bytes)
    requires RewriteHref(site, href) != href
    ensures PathOk(path)
    ensures
      var link := RewriteHref(site, href);
      link == site.origin + PYPI_FILES + path + tail || link == site.origin + PYPI + path
  {
    var source := if site.parse(href).Some? then site.parse(href).value.path else href;
    path := RewritePath(source).value;
    tail := if site.parse(href).Some? then FragmentText(site.parse(href).value.fragment) else [];
  }

  /** A rewritten PyPI page has the links of the original page, and only those. */
  lemma RewrittenPageKeepsStructure(site: Site, page: Bytes)
    requires QuoteFree(site.origin) && ParseKeepsQuotes(site.parse)
    ensures Scan(Rewrite(page, Rewriter(site))) == Map(Scan(page), Rewriter(site))
    ensures Show(Scan(page)) == page
  {
    RewriterIsGentle(site);
    Rescan(page, Rewriter(site));
    ScanShows(page);
  }

  lemma RewriteTwice(page: Bytes, f: Bytes -> Bytes)
    requires Gentle(f) && forall v :: f(f(v)) == f(v)
    ensures Rewrite(Rewrite(page, f), f) == Rewrite(page, f)
  {
    Rescan(page, f);
    MapTwice(Scan(page), f);
  }

  /** A link under the public origin parses, and its host is neither upstream's nor a well-known one. */
  ghost predicate OriginIsOwn(site: Site) {
    forall path: Bytes | StartsWith(path, [SLASH]) ::
      var url := site.parse(site.origin + path);
      && url.Some?
      && !MatchesOrigin(url.value, site.files) && url.value.host != Some(FILES_HOST)
      && !MatchesOrigin(url.value, site.simple) && url.value.host != Some(PYPI_HOST)
  }

  lemma OwnLinkStays(site: Site, path: Bytes)
    requires OriginIsOwn(site) && StartsWith(path, [SLASH])
    ensures RewriteHref(site, site.origin + path) == site.origin + path
  {
  }

  lemma UnderOrigin(link: Bytes, origin: Bytes, canonical: Bytes, tail: Bytes) returns (path: Bytes)
    requires link == origin + PYPI_FILES + canonical + tail || link == origin + PYPI + canonical
    ensures link == origin + path && StartsWith(path, [SLASH])
  {
    if link == origin + PYPI + canonical {
      path := PYPI + canonical;
    } else {
      path := PYPI_FILES + canonical + tail;
    }
  }

  lemma EmittedIsOwn(site: Site, href: Bytes) returns (path: Bytes)
    requires RewriteHref(site, href) != href
    ensures RewriteHref(site, href) == site.origin + path && StartsWith(path, [SLASH])
  {
    var canonical, tail := EmittedPathIsCanonical(site, href);
    path := UnderOrigin(RewriteHref(site, href), site.origin, canonical, tail);
  }

  lemma LinkTwice(site: Site, href: Bytes)
    requires OriginIsOwn(site)
    ensures RewriteHref(site, RewriteHref(site, href)) == RewriteHref(site, href)
  {
    if RewriteHref(site, href) != href {
      var path := EmittedIsOwn(site, href);
      OwnLinkStays(site, path);
    }
  }

  /** Rewriting a rewritten page changes nothing more. */
  lemma SiteRewriteTwice(site: Site, page: Bytes)
    requires QuoteFree(site.origin) && ParseKeepsQuotes(site.parse) && OriginIsOwn(site)
    ensures Rewrite(Rewrite(page, Rewriter(site)), Rewriter(site)) == Rewrite(page, Rewriter(site))
  {
    RewriterIsGentle(site);
    forall v: Bytes ensures Rewriter(site)(Rewriter(site)(v)) == Rewriter(site)(v) {
      LinkTwice(site, v);
    }
    RewriteTwice(page, Rewriter(site));
  }

  lemma {:induction false} MapTwice(d: Doc, f: Bytes -> Bytes)
    requires forall v :: f(f(v)) == f(v)
    ensures Map(Map(d, f), f) == Map(d, f)
  {
    match d
    case End =>
    case Text(_, rest) => MapTwice(rest, f);
    case Link(_, _, rest) => MapTwice(rest, f);
  }

  /*** The output bound ***/

  const USIZE_MAX: nat := 0xffff_ffff_ffff_ffff
  const REWRITE_PREFIX_LEN: nat := 16
  const MIN_LINK_LEN: nat := 8

  function SatAdd(a: nat, b: nat): nat {
    if a + b > USIZE_MAX then USIZE_MAX else a + b
  }

  function SatMul(a: nat, b: nat): nat {
    if a * b > USIZE_MAX then USIZE_MAX else a * b
  }

  function DivCeil(a: nat, b: nat): nat
    requires b > 0
  {
    (a + b - 1) / b
  }

  /** `output_bound` for a PyPI rewrite. */
  function OutputBound(originLen: nat, inputLen: nat): nat {
    var bound := SatAdd(inputLen, SatMul(DivCeil(inputLen, MIN_LINK_LEN), SatAdd(originLen, REWRITE_PREFIX_LEN)));
    if bound < MAX_METADATA_BODY_LEN then bound else MAX_METADATA_BODY_LEN
  }

  /** The bytes of `href=` and two quotes. */
  const LINK_FRAME: nat := 7

  /**
   * The growth of a link is paid for by its own bytes, at a rate of the origin and sixteen bytes
   * for every eight of them.
   */
  predicate Paid(v: Bytes, to: Bytes, originLen: nat) {
    MIN_LINK_LEN * |to| <= MIN_LINK_LEN * |v| + (LINK_FRAME + |v|) * (originLen + REWRITE_PREFIX_LEN)
  }

  ghost predicate Pays(f: Bytes -> Bytes, originLen: nat) {
    forall v: Bytes :: v != [] ==> Paid(v, f(v), originLen)
  }

  /** A page grows by no more than its length pays for. */
  lemma {:induction false} PageGrowth(d: Doc, f: Bytes -> Bytes, originLen: nat)
    requires Pays(f, originLen) && WellScanned(d)
    ensures MIN_LINK_LEN * |Show(Map(d, f))|
         <= MIN_LINK_LEN * |Show(d)| + |Show(d)| * (originLen + REWRITE_PREFIX_LEN)
  {
    match d
    case End =>
    case Text(_, rest) =>
      PageGrowth(rest, f, originLen);
      Spread(1, |Show(rest)|, originLen + REWRITE_PREFIX_LEN);
    case Link(quote, value, rest) =>
      PageGrowth(rest, f, originLen);
      assert Paid(value, f(value), originLen);
      assert |ShowLink(quote, value)| == LINK_FRAME + |value| && |ShowLink(quote, f(value))| == LINK_FRAME + |f(value)|;
      Spread(LINK_FRAME + |value|, |Show(rest)|, originLen + REWRITE_PREFIX_LEN);
  }

  lemma Spread(a: nat, b: nat, k: nat)
    ensures (a + b) * k == a * k + b * k
  {
  }

  lemma Multiply(a: nat, b: nat, k: nat)
    requires a <= b
    ensures a * k <= b * k
  {
  }

  /** The saturating product is the product or the largest `usize`. */
  lemma SaturatedProduct(n: nat, originLen: nat)
    ensures
      var k := originLen + REWRITE_PREFIX_LEN;
      var product := SatMul(n, SatAdd(originLen, REWRITE_PREFIX_LEN));
      product == n * k || product == USIZE_MAX
  {
  }

  /** Ceiling division, saturation and the final minimum lose nothing. */
  lemma BoundCovers(len: nat, originLen: nat, out: nat)
    requires MIN_LINK_LEN * out <= MIN_LINK_LEN * len + len * (originLen + REWRITE_PREFIX_LEN)
    requires out <= MAX_METADATA_BODY_LEN
    ensures out <= OutputBound(originLen, len)
  {
    var n, k := DivCeil(len, MIN_LINK_LEN), originLen + REWRITE_PREFIX_LEN;
    assert len <= MIN_LINK_LEN * n;
    Multiply(len, MIN_LINK_LEN * n, k);
    assert MIN_LINK_LEN * n * k == MIN_LINK_LEN * (n * k);
    assert out <= len + n * k;
    SaturatedProduct(n, originLen);
  }

  /** A rewrite that fits the hard limit fits the reserved bound. */
  lemma OutputFitsBound(page: Bytes, f: Bytes -> Bytes, originLen: nat)
    requires Pays(f, originLen) && |Rewrite(page, f)| <= MAX_METADATA_BODY_LEN
    ensures |Rewrite(page, f)| <= OutputBound(originLen, |page|)
  {
    ScanShows(page);
    ScanIsWell(page);
    PageGrowth(Scan(page), f, originLen);
    BoundCovers(|page|, originLen, |Rewrite(page, f)|);
  }

  /** Percent-encoding: parsing writes at most three bytes for one. */
  ghost predicate ParseTriples(parse: Bytes -> Option<Url>) {
    forall href: Bytes :: parse(href).Some? ==>
      |parse(href).value.path| + |FragmentText(parse(href).value.fragment)| <= 3 * |href|
  }

  lemma LinkGrowth(site: Site, href: Bytes)
    requires ParseTriples(site.parse)
    ensures |RewriteHref(site, href)| <= 3 * |href| + |site.origin| + 12
  {
    match site.parse(href)
    case Some(url) =>
      if RewritePath(url.path).Some? {
        NeverLonger(url.path);
      }
    case None =>
      if RewritePath(href).Some? {
        NeverLonger(href);
      }
  }

  /** Seven bytes around a link and one in it pay for the origin, the others for the encoding. */
  lemma TripleIsPaid(n: nat, to: nat, o: nat)
    requires n >= 1 && to <= 3 * n + o + 12
    ensures MIN_LINK_LEN * to <= MIN_LINK_LEN * n + (LINK_FRAME + n) * (o + REWRITE_PREFIX_LEN)
  {
    Multiply(LINK_FRAME + 1, LINK_FRAME + n, o);
    Expand(LINK_FRAME + n, o, REWRITE_PREFIX_LEN);
  }

  lemma Expand(a: nat, b: nat, c: nat)
    ensures a * (b + c) == a * b + a * c
  {
  }

  lemma TripledPays(v: Bytes, to: Bytes, originLen: nat)
    requires v != [] && |to| <= 3 * |v| + originLen + 12
    ensures Paid(v, to, originLen)
  {
    TripleIsPaid(|v|, |to|, originLen);
  }

  lemma LinkPays(site: Site, href: Bytes)
    requires ParseTriples(site.parse) && href != []
    ensures Paid(href, RewriteHref(site, href), |site.origin|)
  {
    LinkGrowth(site, href);
    TripledPays(href, RewriteHref(site, href), |site.origin|);
  }

  /** The reserved bound covers every page: what is written for links is never more. */
  lemma SiteFitsBound(site: Site, page: Bytes)
    requires ParseTriples(site.parse) && |Rewrite(page, Rewriter(site))| <= MAX_METADATA_BODY_LEN
    ensures |Rewrite(page, Rewriter(site))| <= OutputBound(|site.origin|, |page|)
  {
    forall v: Bytes | v != [] ensures Paid(v, Rewriter(site)(v), |site.origin|) {
      LinkPays(site, v);
    }
    OutputFitsBound(page, Rewriter(site), |site.origin|);
  }

  /** The growth the bound was written for, eight bytes at least and the origin and sixteen more, is paid for too. */
  lemma ShortLinkPays(v: Bytes, to: Bytes, originLen: nat)
    requires to == v || (|v| >= MIN_LINK_LEN && |to| <= |v| + originLen + REWRITE_PREFIX_LEN)
    ensures Paid(v, to, originLen)
  {
    if to != v {
      Multiply(MIN_LINK_LEN, LINK_FRAME + |v|, originLen + REWRITE_PREFIX_LEN);
    }
  }

  /** Where nothing saturates the bound is the page, one growth for each eight bytes begun, and at most the limit. */
  lemma BoundFormula(originLen: nat, len: nat, links: nat)
    requires 8 * links < len + 8 && len <= 8 * links && len + links * (originLen + 16) <= USIZE_MAX
    ensures
      var bound := len + links * (originLen + 16);
      OutputBound(originLen, len) == if bound < 128 * 1048576 then bound else 128 * 1048576
  {
    assert DivCeil(len, MIN_LINK_LEN) == links;
    if links > 0 {
      Multiply(1, links, originLen + 16);
    }
  }
}
