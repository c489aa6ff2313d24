/** What a cache key stands for: src/cache.rs:169-175, 678-689, src/proxy.rs:48-55, src/routes.rs:127-143. */
module Identity {
  import opened Basics
  import opened CanonicalPath

  /*** The hash input ***/

  // "artifact"
  const ARTIFACT: Bytes := [0x61, 0x72, 0x74, 0x69, 0x66, 0x61, 0x63, 0x74]
  // "metadata"
  const METADATA: Bytes := [0x6d, 0x65, 0x74, 0x61, 0x64, 0x61, 0x74, 0x61]
  // "raw:v1"
  const RAW: Bytes := [0x72, 0x61, 0x77, 0x3a, 0x76, 0x31]
  // "npm:v2:"
  const NPM: Bytes := [0x6e, 0x70, 0x6d, 0x3a, 0x76, 0x32, 0x3a]
  // "pypi:v2:"
  const PYPI: Bytes := [0x70, 0x79, 0x70, 0x69, 0x3a, 0x76, 0x32, 0x3a]

  datatype Rewrite = Raw | Npm(origin: Bytes) | Pypi(origin: Bytes)

  /** What a key is asked for: an artifact, or metadata in one representation. */
  datatype Resource = Artifact(upstream: Bytes) | Metadata(upstream: Bytes, rewrite: Rewrite)

  /** `cache_identity`. */
  function CacheIdentity(rewrite: Rewrite): Bytes {
    match rewrite
    case Raw => RAW
    case Npm(origin) => NPM + origin
    case Pypi(origin) => PYPI + origin
  }

  /** The bytes `hash_key` feeds to the hash. */
  function HashInput(kind: Bytes, upstream: Bytes, representation: Option<Bytes>): Bytes {
    kind + [0] + (upstream + [0] + if representation.Some? then representation.value + [0] else [])
  }

  /** `artifact_key` and `metadata_key`, before hashing. */
  function KeyInput(r: Resource): Bytes {
    match r
    case Artifact(upstream) => HashInput(ARTIFACT, upstream, None)
    case Metadata(upstream, rewrite) => HashInput(METADATA, upstream, Some(CacheIdentity(rewrite)))
  }

  /** A field without NUL is recovered from the text it starts. */
  lemma {:induction false} FieldIsCut(a: Bytes, x: Bytes, b: Bytes, y: Bytes)
    requires 0 !in a && 0 !in b && a + [0] + x == b + [0] + y
    ensures a == b && x == y
  {
    var s := a + [0] + x;
    assert s[|a|] == 0 && (b + [0] + y)[|b|] == 0;
    assert s[..|a|] == a && (b + [0] + y)[..|b|] == b;
    assert s[|a| + 1..] == x && (b + [0] + y)[|b| + 1..] == y;
  }

  lemma SuffixIsCut(a: Bytes, b: Bytes, tail: Bytes)
    requires a + tail == b + tail
    ensures a == b
  {
    assert |a| == |b|;
    assert (a + tail)[..|a|] == a && (b + tail)[..|b|] == b;
  }

  lemma PrefixIsCut(head: Bytes, a: Bytes, b: Bytes)
    requires head + a == head + b
    ensures a == b
  {
    assert (head + a)[|head|..] == a && (head + b)[|head|..] == b;
  }

  /** Rewrite kinds and origins have different identities. */
  lemma IdentityIsExact(a: Rewrite, b: Rewrite)
    ensures CacheIdentity(a) == CacheIdentity(b) <==> a == b
  {
    assert CacheIdentity(a)[0] == (match a case Raw => 0x72 case Npm(_) => 0x6e case Pypi(_) => 0x70);
    assert CacheIdentity(b)[0] == (match b case Raw => 0x72 case Npm(_) => 0x6e case Pypi(_) => 0x70);
    if CacheIdentity(a) == CacheIdentity(b) && !a.Raw? && !b.Raw? {
      PrefixIsCut(if a.Npm? then NPM else PYPI, a.origin, b.origin);
    }
  }

  predicate NulFree(r: Resource) {
    r.Metadata? ==> 0 !in r.upstream
  }

  /** Under a collision-free hash two requests share a key exactly when they are the same request. */
  lemma KeyIsExact(a: Resource, b: Resource)
    requires NulFree(a) && NulFree(b)
    ensures KeyInput(a) == KeyInput(b) <==> a == b
  {
    if KeyInput(a) == KeyInput(b) {
      assert KeyInput(a)[0] == if a.Artifact? then 0x61 else 0x6d;
      assert KeyInput(b)[0] == if b.Artifact? then 0x61 else 0x6d;
      if a.Artifact? {
        PrefixIsCut(ARTIFACT + [0], a.upstream + [0] + [], b.upstream + [0] + []);
        assert a.upstream + [0] + [] == a.upstream + [0] && b.upstream + [0] + [] == b.upstream + [0];
        SuffixIsCut(a.upstream, b.upstream, [0]);
      } else {
        var x, y := CacheIdentity(a.rewrite), CacheIdentity(b.rewrite);
        PrefixIsCut(METADATA + [0], a.upstream + [0] + (x + [0]), b.upstream + [0] + (y + [0]));
        FieldIsCut(a.upstream, x + [0], b.upstream, y + [0]);
        SuffixIsCut(x, y, [0]);
        IdentityIsExact(a.rewrite, b.rewrite);
      }
    }
  }

  /** The hypothesis is needed: a NUL in a URL can move the boundary between the fields. */
  lemma NulCollides(u: Bytes)
    ensures
      var origin: Bytes := [0] + RAW;
      var a := Metadata(u, Npm(origin));
      var b := Metadata(u + [0] + NPM, Raw);
      a != b && KeyInput(a) == KeyInput(b)
  {
  }

  /*** npm package names ***/

  const AT: Byte := 0x40
  // "%2F"
  const UPPER: Bytes := [0x25, 0x32, 0x46]
  // "%2f"
  const LOWER: Bytes := [0x25, 0x32, 0x66]

  /** `str::find`, from `i` on. */
  function Find(s: Bytes, sep: Bytes, i: nat): (r: Option<nat>)
    requires i <= |s|
    ensures r.Some? ==> i <= r.value && OccursAt(s, sep, r.value)
    ensures forall j :: i <= j < (if r.Some? then r.value else |s| + 1) ==> !OccursAt(s, sep, j)
    decreases |s| - i
  {
    if OccursAt(s, sep, i) then Some(i) else if i == |s| then None else Find(s, sep, i + 1)
  }

  function Scoped(scope: Bytes, sep: Bytes, name: Bytes): Bytes {
    scope + sep + name
  }

  /** The path `npm_packument_url` hands to `build_url`, before the last check for a slash. */
  ghost function PackagePath(package: Bytes): Option<Bytes> {
    if |package| > 0 && package[0] == AT then
      var upper := Find(package, UPPER, 0);
      var separator := if upper.Some? then upper else Find(package, LOWER, 0);
      if separator.None? then None
      else
        var scope, name := package[..separator.value], package[separator.value + 3..];
        if |scope| <= 1 || !SegmentOk(scope) || !SegmentOk(name) then None
        else Some(Scoped(scope, UPPER, name))
    else if SegmentOk(package) then Some(package)
    else None
  }

  /** ... and after it. */
  ghost function CheckedPath(package: Bytes): Option<Bytes> {
    var path := PackagePath(package);
    if path.Some? && SLASH in path.value then None else path
  }

  /** A permitted segment holds no encoded slash, in either case. */
  lemma {:induction false} OkHoldsNoSeparator(ts: seq<Token>, i: nat)
    requires TokensOk(ts)
    ensures !OccursAt(EmitAll(ts), UPPER, i) && !OccursAt(EmitAll(ts), LOWER, i)
  {
    if ts != [] {
      var t, rest := ts[0], EmitAll(ts[1..]);
      assert TokenOk(t);
      TokenIsNoSeparator(t);
      if i >= |Emit(t)| {
        OkHoldsNoSeparator(ts[1..], i - |Emit(t)|);
        SameBehind(Emit(t), rest, i - |Emit(t)|);
      } else {
        NotInToken(Emit(t), rest, i);
      }
    }
  }

  lemma SameBehind(head: Bytes, rest: Bytes, i: nat)
    requires !OccursAt(rest, UPPER, i) && !OccursAt(rest, LOWER, i)
    ensures !OccursAt(head + rest, UPPER, |head| + i) && !OccursAt(head + rest, LOWER, |head| + i)
  {
  }

  /** No encoded slash starts inside the text of a permitted token. */
  lemma NotInToken(head: Bytes, rest: Bytes, i: nat)
    requires i < |head| && head != UPPER && head != LOWER && (|head| == 3 || head[0] != PERCENT)
    requires forall k :: 0 < k < |head| ==> head[k] != PERCENT
    ensures !OccursAt(head + rest, UPPER, i) && !OccursAt(head + rest, LOWER, i)
  {
    var s := head + rest;
    if i + 3 <= |s| {
      assert s[i..i + 3][0] == head[i];
      assert i == 0 && |head| == 3 ==> s[i..i + 3] == head;
    }
  }

  lemma TokenIsNoSeparator(t: Token)
    requires TokenOk(t)
    ensures Emit(t) != UPPER && Emit(t) != LOWER
    ensures forall i :: 0 <= i < |Emit(t)| && (i > 0 || t.Lit?) ==> Emit(t)[i] != PERCENT
  {
  }

  lemma SegmentHoldsNoSeparator(s: Bytes, i: nat)
    requires SegmentOk(s)
    ensures NoSeparatorAt(s, i)
  {
    var ts :| EmitAll(ts) == s && TokensOk(ts);
    OkHoldsNoSeparator(ts, i);
  }

  predicate IsSeparator(sep: Bytes) {
    sep == UPPER || sep == LOWER
  }

  ghost predicate ValidScoped(scope: Bytes, name: Bytes) {
    |scope| > 1 && scope[0] == AT && SegmentOk(scope) && SegmentOk(name)
  }

  /** In a scoped name the only encoded slash is the one after the scope. */
  lemma OneSeparator(scope: Bytes, sep: Bytes, name: Bytes, at: nat, i: nat)
    requires SegmentOk(scope) && SegmentOk(name) && IsSeparator(sep) && at == |scope| && i != at
    ensures NoSeparatorAt(Scoped(scope, sep, name), i)
  {
    if i + 3 <= at {
      NoneInScope(scope, sep, name, i);
    } else if at + 3 <= i {
      NoneInName(scope, sep, name, i);
    } else {
      NoneAcross(scope, sep, name, i);
    }
  }

  predicate NoSeparatorAt(s: Bytes, i: nat) {
    !OccursAt(s, UPPER, i) && !OccursAt(s, LOWER, i)
  }

  lemma NoneInScope(scope: Bytes, sep: Bytes, name: Bytes, i: nat)
    requires SegmentOk(scope) && i + 3 <= |scope|
    ensures NoSeparatorAt(Scoped(scope, sep, name), i)
  {
    SegmentHoldsNoSeparator(scope, i);
    assert Scoped(scope, sep, name)[i..i + 3] == scope[i..i + 3];
  }

  lemma NoneInName(scope: Bytes, sep: Bytes, name: Bytes, i: nat)
    requires SegmentOk(name) && |sep| == 3 && |scope| + 3 <= i
    ensures NoSeparatorAt(Scoped(scope, sep, name), i)
  {
    var k := i - |scope| - 3;
    SegmentHoldsNoSeparator(name, k);
    if k + 3 <= |name| {
      assert Scoped(scope, sep, name)[i..i + 3] == name[k..k + 3];
    }
  }

  /** An encoded slash neither starts inside the separator nor reaches into it. */
  lemma NoneAcross(scope: Bytes, sep: Bytes, name: Bytes, i: nat)
    requires IsSeparator(sep) && |scope| < i + 3 && i < |scope| + 3 && i != |scope|
    ensures NoSeparatorAt(Scoped(scope, sep, name), i)
  {
    var s, at := Scoped(scope, sep, name), |scope|;
    assert s[at] == sep[0] && s[at + 1] == sep[1] && s[at + 2] == sep[2];
    if OccursAt(s, UPPER, i) || OccursAt(s, LOWER, i) {
      SeparatorBytes(s, i);
    }
  }

  lemma SeparatorBytes(s: Bytes, i: nat)
    requires OccursAt(s, UPPER, i) || OccursAt(s, LOWER, i)
    ensures s[i] == PERCENT && s[i + 1] == 0x32 && s[i + 2] != PERCENT
  {
  }

  lemma SeparatorIsFound(scope: Bytes, sep: Bytes, name: Bytes)
    requires SegmentOk(scope) && SegmentOk(name) && IsSeparator(sep)
    ensures
      var p := Scoped(scope, sep, name);
      Find(p, sep, 0) == Some(|scope|) && (sep == LOWER ==> Find(p, UPPER, 0).None?)
  {
    var p := Scoped(scope, sep, name);
    assert p[|scope|..|scope| + 3] == sep;
    assert OccursAt(p, sep, |scope|);
    forall i: nat | i != |scope| ensures !OccursAt(p, UPPER, i) && !OccursAt(p, LOWER, i) {
      OneSeparator(scope, sep, name, |scope|, i);
    }
  }

  /** A scoped name is accepted, in either case, with the separator in upper case. */
  lemma ScopedPath(scope: Bytes, sep: Bytes, name: Bytes)
    requires ValidScoped(scope, name) && IsSeparator(sep)
    ensures PackagePath(Scoped(scope, sep, name)) == Some(Scoped(scope, UPPER, name))
  {
    var p := Scoped(scope, sep, name);
    SeparatorIsFound(scope, sep, name);
    assert p[..|scope|] == scope && p[|scope| + 3..] == name;
    assert p[0] == AT;
  }

  /** Every accepted name that starts with `@` is a scope, one separator and a name. */
  lemma AcceptedScoped(p: Bytes) returns (scope: Bytes, sep: Bytes, name: Bytes)
    requires |p| > 0 && p[0] == AT && PackagePath(p).Some?
    ensures ValidScoped(scope, name) && IsSeparator(sep) && p == Scoped(scope, sep, name)
    ensures PackagePath(p) == Some(Scoped(scope, UPPER, name))
  {
    var upper := Find(p, UPPER, 0);
    var at := if upper.Some? then upper.value else Find(p, LOWER, 0).value;
    scope, sep, name := p[..at], if upper.Some? then UPPER else LOWER, p[at + 3..];
    assert p == p[..at] + p[at..at + 3] + p[at + 3..];
  }

  /** Accepted are the canonical segments that have no scope, and scope, separator, name. */
  lemma AcceptedNames(p: Bytes)
    ensures PackagePath(p).Some? <==>
      || (!StartsScoped(p) && SegmentOk(p))
      || exists scope, sep, name :: ValidScoped(scope, name) && IsSeparator(sep) && p == Scoped(scope, sep, name)
    ensures !StartsScoped(p) && SegmentOk(p) ==> PackagePath(p) == Some(p)
  {
    if StartsScoped(p) && PackagePath(p).Some? {
      var scope, sep, name := AcceptedScoped(p);
    }
    forall scope, sep, name | ValidScoped(scope, name) && IsSeparator(sep) && p == Scoped(scope, sep, name)
      ensures PackagePath(p).Some?
    {
      ScopedPath(scope, sep, name);
    }
  }

  /** Where the scope ends is determined by the path. */
  lemma ScopeIsDetermined(s1: Bytes, n1: Bytes, s2: Bytes, n2: Bytes)
    requires ValidScoped(s1, n1) && ValidScoped(s2, n2) && Scoped(s1, UPPER, n1) == Scoped(s2, UPPER, n2)
    ensures s1 == s2 && n1 == n2
  {
    SeparatorIsFound(s1, UPPER, n1);
    SeparatorIsFound(s2, UPPER, n2);
    var p := Scoped(s1, UPPER, n1);
    assert p[..|s1|] == s1 && p[|s1| + 3..] == n1;
    assert Scoped(s2, UPPER, n2)[..|s2|] == s2 && Scoped(s2, UPPER, n2)[|s2| + 3..] == n2;
  }

  /** Equal, or the same scoped name up to the hexadecimal case of its one separator. */
  ghost predicate SameUpToCase(p: Bytes, q: Bytes) {
    p == q || exists scope, name ::
      ValidScoped(scope, name) && (p == Scoped(scope, UPPER, name) || p == Scoped(scope, LOWER, name))
      && (q == Scoped(scope, UPPER, name) || q == Scoped(scope, LOWER, name))
  }

  /** Two accepted package names share a path exactly when they are the same name up to that case. */
  lemma PackagePathIsExact(p: Bytes, q: Bytes)
    requires PackagePath(p).Some? && PackagePath(q).Some?
    ensures PackagePath(p) == PackagePath(q) <==> SameUpToCase(p, q)
  {
    if PackagePath(p) == PackagePath(q) && p != q {
      SamePathSameName(p, q);
    }
    if SameUpToCase(p, q) && p != q {
      var scope, name :| ValidScoped(scope, name)
        && (p == Scoped(scope, UPPER, name) || p == Scoped(scope, LOWER, name))
        && (q == Scoped(scope, UPPER, name) || q == Scoped(scope, LOWER, name));
      ScopedPath(scope, UPPER, name);
      ScopedPath(scope, LOWER, name);
    }
  }

  predicate StartsScoped(p: Bytes) {
    |p| > 0 && p[0] == AT
  }

  lemma PathKeepsScope(p: Bytes)
    requires PackagePath(p).Some?
    ensures StartsScoped(PackagePath(p).value) == StartsScoped(p)
  {
  }

  lemma SamePathSameName(p: Bytes, q: Bytes)
    requires PackagePath(p).Some? && PackagePath(p) == PackagePath(q)
    ensures SameUpToCase(p, q)
  {
    PathKeepsScope(p);
    PathKeepsScope(q);
    if StartsScoped(p) {
      var s1, c1, n1 := AcceptedScoped(p);
      var s2, c2, n2 := AcceptedScoped(q);
      ScopeIsDetermined(s1, n1, s2, n2);
    }
  }

  /** The path is itself accepted and normal, and the last check never rejects one. */
  lemma PackagePathIsNormal(p: Bytes)
    requires PackagePath(p).Some?
    ensures PackagePath(PackagePath(p).value) == PackagePath(p)
    ensures CheckedPath(p) == PackagePath(p)
  {
    if StartsScoped(p) {
      var scope, sep, name := AcceptedScoped(p);
      ScopedPath(scope, UPPER, name);
      SegmentHoldsNoDelimiter(scope, SLASH);
      SegmentHoldsNoDelimiter(name, SLASH);
    } else {
      SegmentHoldsNoDelimiter(p, SLASH);
    }
  }

  /*** The bytes themselves ***/

  /** What is hashed: class, URL and representation, each closed by a NUL. */
  lemma KeyLayout(r: Resource)
    ensures KeyInput(r) == match r
      case Artifact(url) => Ascii("artifact") + [0] + url + [0]
      case Metadata(url, Raw) => Ascii("metadata") + [0] + url + [0] + Ascii("raw:v1") + [0]
      case Metadata(url, Npm(origin)) => Ascii("metadata") + [0] + url + [0] + (Ascii("npm:v2:") + origin) + [0]
      case Metadata(url, Pypi(origin)) => Ascii("metadata") + [0] + url + [0] + (Ascii("pypi:v2:") + origin) + [0]
  {
    KindsSpelled();
    if r.Artifact? {
      assert ARTIFACT + [0] + (r.upstream + [0] + []) == ARTIFACT + [0] + r.upstream + [0];
    } else {
      var x := CacheIdentity(r.rewrite);
      assert METADATA + [0] + (r.upstream + [0] + (x + [0])) == METADATA + [0] + r.upstream + [0] + x + [0];
    }
  }

  lemma KindsSpelled()
    ensures ARTIFACT == Ascii("artifact") && METADATA == Ascii("metadata")
    ensures RAW == Ascii("raw:v1") && NPM == Ascii("npm:v2:") && PYPI == Ascii("pypi:v2:")
    ensures UPPER == Ascii("%2F") && LOWER == Ascii("%2f")
  {
  }
}
