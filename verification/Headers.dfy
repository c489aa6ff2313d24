/** Response headers between upstream, the stored metadata and the client: src/proxy.rs:591-743. */
module Headers {
  import opened Basics
  import Decimal

  /** A header value: `to_str` succeeds on visible ASCII only. */
  datatype Value = Text(text: string) | Opaque

  datatype Header = Header(name: string, value: Value)

  datatype Pair = Pair(name: string, value: string)

  /** `StoredResponseMeta`. */
  datatype Meta = Meta(headers: seq<Pair>, lastModified: Option<string>, etag: Option<string>, status: nat)

  const CONTENT_LENGTH := "content-length"
  const CONTENT_TYPE := "content-type"
  const ETAG := "etag"
  const LAST_MODIFIED := "last-modified"
  const HOP_HEADERS := {
    "connection", "keep-alive", "proxy-authenticate", "proxy-authorization",
    "te", "trailer", "transfer-encoding", "upgrade"}

  /** `to_ascii_lowercase` on one character. */
  function LowerChar(c: char): char {
    if 'A' <= c <= 'Z' then "abcdefghijklmnopqrstuvwxyz"[c as int - 'A' as int] else c
  }

  function Lower(s: string): string {
    seq(|s|, i requires 0 <= i < |s| => LowerChar(s[i]))
  }

  /** `is_hop_header`. */
  predicate IsHopHeader(name: string) {
    Lower(name) in HOP_HEADERS
  }

  /** The stored form of one upstream header, if it is stored. */
  function Stored(h: Header, sized: bool): seq<Pair> {
    if IsHopHeader(h.name) || (sized && h.name == CONTENT_LENGTH) || h.value.Opaque? then []
    else [Pair(h.name, h.value.text)]
  }

  function StoredAll(hs: seq<Header>, sized: bool): seq<Pair> {
    if hs == [] then [] else StoredAll(hs[..|hs| - 1], sized) + Stored(hs[|hs| - 1], sized)
  }

  function LengthPair(n: nat): Pair {
    Pair(CONTENT_LENGTH, Decimal.Show(n))
  }

  /** `HeaderMap::get(name)` then `to_str`: the first value under a name, if it is text. */
  function FirstText(hs: seq<Header>, name: string): Option<string> {
    if hs == [] then None
    else if hs[0].name == name then (if hs[0].value.Text? then Some(hs[0].value.text) else None)
    else FirstText(hs[1..], name)
  }

  /** What is stored about a response of `length` bytes, or of unknown length. */
  function UpstreamMeta(status: nat, hs: seq<Header>, length: Option<nat>): Meta {
    Meta(StoredAll(hs, length.Some?) + (if length.Some? then [LengthPair(length.value)] else []),
         FirstText(hs, LAST_MODIFIED), FirstText(hs, ETAG), status)
  }

  /** `meta_from_upstream`. */
  method MetaFromUpstream(status: nat, hs: seq<Header>, length: Option<nat>) returns (meta: Meta)
    ensures meta == UpstreamMeta(status, hs, length)
  {
    var stored: seq<Pair> := [];
    for i := 0 to |hs|
      invariant stored == StoredAll(hs[..i], length.Some?)
    {
      assert hs[..i + 1][..i] == hs[..i];
      if IsHopHeader(hs[i].name) {
        continue;
      }
      if length.Some? && hs[i].name == CONTENT_LENGTH {
        continue;
      }
      if hs[i].value.Text? {
        stored := stored + [Pair(hs[i].name, hs[i].value.text)];
      }
    }
    assert hs[..|hs|] == hs;
    if length.Some? {
      stored := stored + [LengthPair(length.value)];
    }
    meta := Meta(stored, FirstText(hs, LAST_MODIFIED), FirstText(hs, ETAG), status);
  }

  /*** What a client is sent ***/

  predicate Named(p: Pair, name: string) {
    Lower(p.name) == name
  }

  /** `strip_header`. */
  function Strip(ps: seq<Pair>, name: string): (r: seq<Pair>)
    ensures forall p :: p in r <==> p in ps && !Named(p, name)
  {
    if ps == [] then []
    else Strip(ps[..|ps| - 1], name) + (if Named(ps[|ps| - 1], name) then [] else [ps[|ps| - 1]])
  }

  predicate Has(ps: seq<Pair>, name: string) {
    exists i :: 0 <= i < |ps| && Named(ps[i], name)
  }

  function WithType(ps: seq<Pair>): seq<Pair> {
    if Has(ps, CONTENT_TYPE) then ps else ps + [Pair(CONTENT_TYPE, "application/octet-stream")]
  }

  /** `meta_for_bytes`. */
  function BytesMeta(status: nat, hs: seq<Header>, length: nat, expose: bool): Meta {
    var meta := UpstreamMeta(status, hs, Some(length));
    var headers := if expose then meta.headers else Strip(Strip(meta.headers, ETAG), LAST_MODIFIED);
    meta.(headers := WithType(headers))
  }

  /** `HeaderName::from_bytes` and `HeaderValue::from_str` accept. */
  datatype Syntax = Syntax(name: string -> bool, value: string -> bool)

  /** The last acceptable pair under a name: `HeaderMap::insert` replaces. */
  function Sent(ps: seq<Pair>, syntax: Syntax, name: string): Option<string> {
    if ps == [] then None
    else
      var p := ps[|ps| - 1];
      if Lower(p.name) == name && syntax.name(p.name) && syntax.value(p.value) then Some(p.value)
      else Sent(ps[..|ps| - 1], syntax, name)
  }

  /** `apply_headers`, on an empty header map; names are stored in lower case. */
  method ApplyHeaders(ps: seq<Pair>, syntax: Syntax) returns (headers: map<string, string>)
    ensures forall name ::
      if name in headers then Sent(ps, syntax, name) == Some(headers[name]) else Sent(ps, syntax, name).None?
  {
    headers := map[];
    for i := 0 to |ps|
      invariant forall name ::
        if name in headers then Sent(ps[..i], syntax, name) == Some(headers[name])
        else Sent(ps[..i], syntax, name).None?
    {
      assert ps[..i + 1][..i] == ps[..i];
      if !syntax.name(ps[i].name) {
        continue;
      }
      if !syntax.value(ps[i].value) {
        continue;
      }
      headers := headers[Lower(ps[i].name) := ps[i].value];
    }
    assert ps[..|ps|] == ps;
  }

  /*** Properties ***/

  /** What the header map of the HTTP library guarantees about names. */
  ghost predicate LowerNames(hs: seq<Header>) {
    forall h :: h in hs ==> Lower(h.name) == h.name
  }

  /** Every stored pair comes from an upstream header that is not hop-by-hop. */
  lemma {:induction false} StoredFrom(hs: seq<Header>, sized: bool, p: Pair)
    ensures p in StoredAll(hs, sized) <==>
      Header(p.name, Text(p.value)) in hs && !IsHopHeader(p.name) && !(sized && p.name == CONTENT_LENGTH)
  {
    if hs != [] {
      var n := |hs| - 1;
      StoredFrom(hs[..n], sized, p);
      assert hs == hs[..n] + [hs[n]];
    }
  }

  /** Stored headers keep the order of the upstream headers. */
  lemma {:induction false} StoredAppend(a: seq<Header>, b: seq<Header>, sized: bool)
    ensures StoredAll(a + b, sized) == StoredAll(a, sized) + StoredAll(b, sized)
  {
    if b == [] {
      assert a + b == a;
    } else {
      var n := |b| - 1;
      var init := a + b[..n];
      assert a + b == init + [b[n]] && (a + b)[..|a + b| - 1] == init;
      StoredAppend(a, b[..n], sized);
      var x, y, z := StoredAll(a, sized), StoredAll(b[..n], sized), Stored(b[n], sized);
      assert x + y + z == x + (y + z);
    }
  }

  /** No pair under `name`, so nothing is sent under it. */
  lemma {:induction false} SentNeedsPair(ps: seq<Pair>, syntax: Syntax, name: string)
    requires forall p :: p in ps ==> !Named(p, name)
    ensures Sent(ps, syntax, name).None?
  {
    if ps != [] {
      var n := |ps| - 1;
      assert ps[n] in ps && !Named(ps[n], name);
      SentNeedsPair(ps[..n], syntax, name);
    }
  }

  lemma NoHopPair(hs: seq<Header>, sized: bool, p: Pair, name: string)
    requires name in HOP_HEADERS && (p in StoredAll(hs, sized) || p.name == CONTENT_LENGTH || p.name == CONTENT_TYPE)
    ensures !Named(p, name)
  {
    if p in StoredAll(hs, sized) {
      StoredFrom(hs, sized, p);
    }
    assert |Lower(CONTENT_LENGTH)| == 14 && |Lower(CONTENT_TYPE)| == 12;
    assert Lower(CONTENT_LENGTH)[0] == 'c' && Lower(CONTENT_TYPE)[0] == 'c';
  }

  /** No hop-by-hop header reaches a client, streamed or buffered, rewritten or not. */
  lemma NoHopHeaderSent(status: nat, hs: seq<Header>, length: Option<nat>, n: nat, expose: bool, syntax: Syntax, name: string)
    requires name in {"connection", "keep-alive", "proxy-authenticate", "proxy-authorization",
                      "te", "trailer", "transfer-encoding", "upgrade"}
    ensures Sent(UpstreamMeta(status, hs, length).headers, syntax, name).None?
    ensures Sent(BytesMeta(status, hs, n, expose).headers, syntax, name).None?
  {
    var streamed, buffered := UpstreamMeta(status, hs, length).headers, BytesMeta(status, hs, n, expose).headers;
    forall p | p in streamed ensures !Named(p, name) {
      NoHopPair(hs, length.Some?, p, name);
    }
    SentNeedsPair(streamed, syntax, name);
    forall p | p in buffered ensures !Named(p, name) {
      BufferedFrom(status, hs, n, expose, p);
      NoHopPair(hs, true, p, name);
    }
    SentNeedsPair(buffered, syntax, name);
  }

  /** A buffered response adds a length and a type to what is stored, and nothing else. */
  lemma BufferedFrom(status: nat, hs: seq<Header>, n: nat, expose: bool, p: Pair)
    requires p in BytesMeta(status, hs, n, expose).headers
    ensures p in StoredAll(hs, true) || p == LengthPair(n) || p.name == CONTENT_TYPE
  {
    var all := UpstreamMeta(status, hs, Some(n)).headers;
    var kept := if expose then all else Strip(Strip(all, ETAG), LAST_MODIFIED);
    assert p in WithType(kept);
    assert p in kept ==> p in all;
  }

  /** Among the pairs there is one content length, and it is `n`. */
  ghost predicate SizedBy(ps: seq<Pair>, n: nat) {
    LengthPair(n) in ps && forall p :: p in ps && Named(p, CONTENT_LENGTH) ==> p == LengthPair(n)
  }

  lemma UpstreamIsSized(status: nat, hs: seq<Header>, n: nat)
    requires LowerNames(hs)
    ensures SizedBy(UpstreamMeta(status, hs, Some(n)).headers, n)
  {
    var ps := UpstreamMeta(status, hs, Some(n)).headers;
    forall p | p in StoredAll(hs, true) ensures !Named(p, CONTENT_LENGTH) {
      StoredFrom(hs, true, p);
      assert Lower(Header(p.name, Text(p.value)).name) == p.name;
    }
  }

  lemma LengthIsOther(n: nat)
    ensures !Named(LengthPair(n), ETAG) && !Named(LengthPair(n), LAST_MODIFIED)
  {
  }

  lemma BytesAreSized(status: nat, hs: seq<Header>, n: nat, expose: bool)
    requires LowerNames(hs)
    ensures SizedBy(BytesMeta(status, hs, n, expose).headers, n)
  {
    UpstreamIsSized(status, hs, n);
    LengthIsOther(n);
    assert |Lower(CONTENT_TYPE)| == 12;
  }

  /** A sized response is sent with one content length, the decimal number of its bytes. */
  lemma {:induction false} SizedIsSent(ps: seq<Pair>, syntax: Syntax, n: nat)
    requires SizedBy(ps, n) && syntax.name(CONTENT_LENGTH) && syntax.value(Decimal.Show(n))
    ensures Sent(ps, syntax, CONTENT_LENGTH) == Some(Decimal.Show(n))
  {
    var last := ps[|ps| - 1];
    if Named(last, CONTENT_LENGTH) {
      assert last == LengthPair(n);
    } else {
      assert Lower(CONTENT_LENGTH) == CONTENT_LENGTH;
      assert ps == ps[..|ps| - 1] + [last];
      SizedIsSent(ps[..|ps| - 1], syntax, n);
    }
  }

  /** A rewritten body is never sent with the validators of the body it was made from. */
  lemma NoUpstreamValidatorSent(status: nat, hs: seq<Header>, n: nat, syntax: Syntax, name: string)
    requires name == ETAG || name == LAST_MODIFIED
    ensures Sent(BytesMeta(status, hs, n, false).headers, syntax, name).None?
    ensures BytesMeta(status, hs, n, false).etag == FirstText(hs, ETAG)
    ensures BytesMeta(status, hs, n, false).lastModified == FirstText(hs, LAST_MODIFIED)
  {
    assert |Lower(CONTENT_TYPE)| == 12;
    SentNeedsPair(BytesMeta(status, hs, n, false).headers, syntax, name);
  }

  /** Every buffered response names a content type: its own, or the default. */
  lemma TypeAlwaysNamed(ps: seq<Pair>)
    ensures Has(WithType(ps), "content-type") && ps <= WithType(ps)
    ensures WithType(ps) == if Has(ps, "content-type") then ps else ps + [Pair("content-type", "application/octet-stream")]
  {
    assert Lower(CONTENT_TYPE) == CONTENT_TYPE;
    if !Has(ps, CONTENT_TYPE) {
      assert Named(WithType(ps)[|ps|], CONTENT_TYPE);
    }
  }

  lemma {:induction false} FirstTextExact(hs: seq<Header>, name: string, i: nat)
    requires i <= |hs| && forall j :: 0 <= j < i ==> hs[j].name != name
    requires i == |hs| || hs[i].name == name
    ensures FirstText(hs, name) == if i < |hs| && hs[i].value.Text? then Some(hs[i].value.text) else None
  {
    if i > 0 {
      FirstTextExact(hs[1..], name, i - 1);
    }
  }

  /** The stored validators are the first values under their names, if those are text, whatever is sent to clients. */
  lemma StoredValidators(status: nat, hs: seq<Header>, n: nat, expose: bool, i: nat, j: nat)
    requires i <= |hs| && (forall k :: 0 <= k < i ==> hs[k].name != "etag") && (i == |hs| || hs[i].name == "etag")
    requires j <= |hs| && (forall k :: 0 <= k < j ==> hs[k].name != "last-modified")
    requires j == |hs| || hs[j].name == "last-modified"
    ensures
      var etag := if i < |hs| && hs[i].value.Text? then Some(hs[i].value.text) else None;
      var date := if j < |hs| && hs[j].value.Text? then Some(hs[j].value.text) else None;
      && UpstreamMeta(status, hs, Some(n)).etag == BytesMeta(status, hs, n, expose).etag == etag
      && UpstreamMeta(status, hs, Some(n)).lastModified == BytesMeta(status, hs, n, expose).lastModified == date
      && UpstreamMeta(status, hs, Some(n)).status == BytesMeta(status, hs, n, expose).status == status
  {
    FirstTextExact(hs, "etag", i);
    FirstTextExact(hs, "last-modified", j);
  }

  /**
   * A buffered response keeps every upstream header that is text, end-to-end and not a length;
   * only the validators are taken out, and only of a rewritten body.
   */
  lemma BufferedKeeps(status: nat, hs: seq<Header>, n: nat, expose: bool, h: Header)
    requires h in hs && h.value.Text? && !IsHopHeader(h.name) && h.name != "content-length"
    requires expose || (Lower(h.name) != "etag" && Lower(h.name) != "last-modified")
    ensures Pair(h.name, h.value.text) in BytesMeta(status, hs, n, expose).headers
  {
    var p := Pair(h.name, h.value.text);
    StoredFrom(hs, true, p);
    var all := UpstreamMeta(status, hs, Some(n)).headers;
    assert p in all;
    assert !Named(p, ETAG) || expose;
    TypeAlwaysNamed(if expose then all else Strip(Strip(all, ETAG), LAST_MODIFIED));
  }

  /** Header names compare without the case of ASCII letters. */
  lemma LowerExact(c: char)
    ensures LowerChar(c) as int == if 'A' <= c <= 'Z' then c as int + 32 else c as int
  {
  }
}
