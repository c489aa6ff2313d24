/** Which link a link becomes, said from the parsed URL: src/routes.rs:283-336. */
module LinkRoutes {
  import opened Basics
  import opened CanonicalPath
  import opened CanonicalForm
  import opened PypiLinks

  /** `q` is the canonical path of a path that starts with a slash. */
  ghost predicate CanonicalOf(path: Bytes, q: Bytes) {
    path != [] && path[0] == '/' as int && IsFormOf(path[1..], q)
  }

  predicate SameOrigin(url: Url, base: Url) {
    url.scheme == base.scheme && url.host == base.host && url.port == base.port
  }

  predicate ToFiles(site: Site, url: Url) {
    SameOrigin(url, site.files) || url.host == Some(Ascii("files.pythonhosted.org"))
  }

  predicate ToIndex(site: Site, url: Url) {
    SameOrigin(url, site.simple) || url.host == Some(Ascii("pypi.org"))
  }

  lemma Spelled()
    ensures FILES_HOST == Ascii("files.pythonhosted.org") && PYPI_HOST == Ascii("pypi.org")
    ensures SIMPLE == Ascii("/simple/") && PYPI == Ascii("/pypi/") && PYPI_FILES == Ascii("/pypi/files/")
  {
  }

  function Under(origin: Bytes, route: Bytes, path: Bytes): Bytes {
    origin + route + path
  }

  /** A file keeps its canonical path and its fragment, the hash, under the files route. */
  ghost predicate FileLink(site: Site, url: Url, link: Bytes) {
    && !url.userinfo && !url.query
    && exists q :: CanonicalOf(url.path, q)
         && link == Under(site.origin, Ascii("/pypi/files/"), q)
                    + if url.fragment.Some? then Ascii("#") + url.fragment.value else []
  }

  /** An index page keeps its canonical path under the index route, if nothing else is in the link. */
  ghost predicate IndexLink(site: Site, url: Url, link: Bytes) {
    && !url.userinfo && !url.query && url.fragment.None? && Ascii("/simple/") <= url.path
    && exists q :: CanonicalOf(url.path, q) && link == Under(site.origin, Ascii("/pypi/"), q)
  }

  ghost predicate RootLink(site: Site, href: Bytes, link: Bytes) {
    Ascii("/simple/") <= href && exists q :: CanonicalOf(href, q) && link == Under(site.origin, Ascii("/pypi/"), q)
  }

  /** The link through the proxy, if there is one. */
  ghost predicate Routed(site: Site, href: Bytes, link: Bytes) {
    match site.parse(href)
    case Some(url) =>
      if ToFiles(site, url) then FileLink(site, url, link)
      else ToIndex(site, url) && IndexLink(site, url, link)
    case None => RootLink(site, href, link)
  }

  lemma FileExact(site: Site, url: Url, link: Bytes)
    ensures FileLink(site, url, link) <==>
      && !url.userinfo && !url.query && RewritePath(url.path).Some?
      && link == site.origin + PYPI_FILES + RewritePath(url.path).value + FragmentText(url.fragment)
  {
    Spelled();
    assert Ascii("#") == [HASH];
    AcceptedExactly(url.path);
    forall q ensures CanonicalOf(url.path, q) <==> RewritePath(url.path) == Some(q) {
      NormaliserExact(url.path, q);
    }
  }

  lemma IndexExact(site: Site, url: Url, link: Bytes)
    ensures IndexLink(site, url, link) <==>
      && !url.userinfo && !url.query && url.fragment.None? && StartsWith(url.path, SIMPLE)
      && RewritePath(url.path).Some? && link == site.origin + PYPI + RewritePath(url.path).value
  {
    Spelled();
    forall q ensures CanonicalOf(url.path, q) <==> RewritePath(url.path) == Some(q) {
      NormaliserExact(url.path, q);
    }
  }

  lemma RootExact(site: Site, href: Bytes, link: Bytes)
    ensures RootLink(site, href, link) <==>
      StartsWith(href, SIMPLE) && RewritePath(href).Some? && link == site.origin + PYPI + RewritePath(href).value
  {
    Spelled();
    forall q ensures CanonicalOf(href, q) <==> RewritePath(href) == Some(q) {
      NormaliserExact(href, q);
    }
  }

  /** Some link through the proxy. */
  ghost predicate IsRouted(site: Site, href: Bytes) {
    exists link :: Routed(site, href, link)
  }

  lemma RoutedExact(site: Site, href: Bytes, link: Bytes)
    ensures Routed(site, href, link) ==> RewriteHref(site, href) == link
    ensures !Routed(site, href, RewriteHref(site, href)) ==> RewriteHref(site, href) == href
  {
    Spelled();
    var to := RewriteHref(site, href);
    match site.parse(href)
    case Some(url) =>
      FileExact(site, url, link);
      FileExact(site, url, to);
      IndexExact(site, url, link);
      IndexExact(site, url, to);
    case None =>
      RootExact(site, href, link);
      RootExact(site, href, to);
  }

  /**
   * A link becomes its route through the proxy when it has one, and every other link stays as it
   * is written; a link has at most one route.
   */
  lemma RewriteHrefExact(site: Site, href: Bytes, link: Bytes)
    ensures RewriteHref(site, href) == link <==>
      Routed(site, href, link) || (link == href && !IsRouted(site, href))
  {
    RoutedExact(site, href, link);
    RoutedExact(site, href, RewriteHref(site, href));
    if IsRouted(site, href) {
      var other :| Routed(site, href, other);
      RoutedExact(site, href, other);
    }
  }

  /** The path of a routed link stands for the same bytes as the path it was made from. */
  lemma SameBytes(path: Bytes, q: Bytes)
    requires CanonicalOf(path, q)
    ensures Tokens(path[1..]).Some? && Tokens(q).Some?
    ensures Decoded(Tokens(q).value) == Decoded(Tokens(path[1..]).value)
  {
  }

  /** Index links stay under `simple/`. */
  lemma IndexStaysSimple(path: Bytes, q: Bytes)
    requires CanonicalOf(path, q) && Ascii("/simple/") <= path
    ensures Ascii("simple/") <= q
  {
    SimpleHead(path);
    HeadStays(Ascii("simple/"), path, q);
  }

  lemma SimpleHead(path: Bytes)
    requires Ascii("/simple/") <= path
    ensures IsPlain(Ascii("simple/")) && Ascii("simple/") <= path[1..]
  {
    assert Ascii("/simple/")[1..] == Ascii("simple/");
  }

  /** A head of plain characters stays as it is. */
  lemma HeadStays(head: Bytes, path: Bytes, q: Bytes)
    requires IsPlain(head) && CanonicalOf(path, q) && head <= path[1..]
    ensures head <= q
  {
    var tail := path[1..][|head|..];
    assert path[1..] == head + tail;
    NormaliserExact(path, q);
    LiteralTokens(head);
    TokensOfTail(head, tail);
    TokensAppend(head, tail);
    var ts := Tokens(tail).value;
    NormalAppend(Literals(head), ts);
    LiteralsNormal(head);
    EmitAppend(Literals(head), NormalAll(ts));
    LiteralsEmit(head);
  }

  function Literals(s: Bytes): seq<Token> {
    if s == [] then [] else [Lit(s[0])] + Literals(s[1..])
  }

  predicate IsPlain(s: Bytes) {
    forall i :: 0 <= i < |s| ==> s[i] < 128 && s[i] != PERCENT
  }

  lemma {:induction false} LiteralTokens(s: Bytes)
    requires IsPlain(s)
    ensures Tokens(s) == Some(Literals(s))
  {
    if s != [] {
      LiteralTokens(s[1..]);
    }
  }

  lemma {:induction false} LiteralsNormal(s: Bytes)
    ensures NormalAll(Literals(s)) == Literals(s)
  {
    if s != [] {
      LiteralsNormal(s[1..]);
      assert Literals(s)[1..] == Literals(s[1..]);
    }
  }

  lemma {:induction false} LiteralsEmit(s: Bytes)
    requires IsPlain(s)
    ensures EmitAll(Literals(s)) == s
  {
    if s != [] {
      LiteralsEmit(s[1..]);
      assert Literals(s)[1..] == Literals(s[1..]);
      assert s == [s[0]] + s[1..];
    }
  }

  lemma {:induction false} TokensOfTail(a: Bytes, b: Bytes)
    requires IsPlain(a) && Tokens(a + b).Some?
    ensures Tokens(b).Some?
  {
    if a == [] {
      assert a + b == b;
    } else {
      assert (a + b)[1..] == a[1..] + b;
      TokensOfTail(a[1..], b);
    }
  }

  /*** npm tarballs ***/

  const NPM_HOST: Bytes := Ascii("registry.npmjs.org")
  const TARBALLS: Bytes := Ascii("/npm/tarballs/")

  /** `rewrite_npm_tarball`, for the registry `npm` and the public origin. */
  ghost function RewriteTarball(npm: Url, origin: Bytes, parse: Bytes -> Option<Url>, input: Bytes): Option<Bytes> {
    var url := parse(input);
    if url.None? then None
    else if (!MatchesOrigin(url.value, npm) && url.value.host != Some(NPM_HOST))
            || url.value.userinfo || url.value.query || url.value.fragment.Some? then None
    else
      var path := RewritePath(url.value.path);
      if path.None? then None else Some(Under(origin, TARBALLS, path.value))
  }

  /** A tarball link is replaced exactly when it is a plain link to the registry with a canonical path, which it keeps. */
  lemma TarballExact(npm: Url, origin: Bytes, parse: Bytes -> Option<Url>, input: Bytes, link: Bytes)
    ensures RewriteTarball(npm, origin, parse, input) == Some(link) <==>
      && parse(input).Some?
      && var url := parse(input).value;
      && (SameOrigin(url, npm) || url.host == Some(NPM_HOST))
      && !url.userinfo && !url.query && url.fragment.None?
      && exists q :: CanonicalOf(url.path, q) && link == Under(origin, TARBALLS, q)
  {
    if parse(input).Some? {
      var path := parse(input).value.path;
      forall q ensures CanonicalOf(path, q) <==> RewritePath(path) == Some(q) {
        NormaliserExact(path, q);
      }
    }
  }
}
