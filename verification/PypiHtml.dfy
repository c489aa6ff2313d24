/**
 * The href splicer of src/routes.rs:149-188 over the matches of `href="([^"]+)"|href='([^']+)'`
 * (src/routes.rs:473-476).
 */
module PypiHtml {
  import opened Basics
  import opened CanonicalPath
  import LO = LimitedOutput

  /** The bytes of `href=`. */
  const HREF: Bytes := [0x68, 0x72, 0x65, 0x66, 0x3d]

  const DOUBLE: Byte := 0x22
  const SINGLE: Byte := 0x27

  /** The document as a scanner sees it: bytes outside links, and links with their quote and value. */
  datatype Doc = End | Text(b: Byte, rest: Doc) | Link(quote: Byte, value: Bytes, rest: Doc)

  function ShowLink(quote: Byte, value: Bytes): Bytes {
    HREF + [quote] + value + [quote]
  }

  function Show(d: Doc): Bytes {
    match d
    case End => []
    case Text(b, rest) => [b] + Show(rest)
    case Link(quote, value, rest) => ShowLink(quote, value) + Show(rest)
  }

  /** Position of the first `b` at or after `from`. */
  function Find(s: Bytes, b: Byte, from: nat): (r: Option<nat>)
    requires from <= |s|
    ensures r.Some? ==> from <= r.value < |s| && s[r.value] == b && b !in s[from..r.value]
    ensures r.None? ==> b !in s[from..]
    decreases |s| - from
  {
    if from == |s| then None
    else if s[from] == b then Some(from)
    else
      var r := Find(s, b, from + 1);
      assert s[from..] == [s[from]] + s[from + 1..];
      assert r.Some? ==> s[from..r.value] == [s[from]] + s[from + 1..r.value];
      r
  }

  /** A match of the pattern at the very start of `s`: the index of its closing quote. */
  function Hit(s: Bytes): (r: Option<nat>)
    ensures r.Some? ==> 7 <= r.value < |s| && IsQuote(s[5])
  {
    if |s| < 8 || s[..5] != HREF || !IsQuote(s[5]) then None
    else
      var close := Find(s, s[5], 6);
      if close.None? || close.value == 6 then None else close
  }

  /** Leftmost non-overlapping matches. */
  function Scan(s: Bytes): Doc
    decreases |s|
  {
    if s == [] then End
    else
      var hit := Hit(s);
      if hit.None? then Text(s[0], Scan(s[1..]))
      else Link(s[5], s[6..hit.value], Scan(s[hit.value + 1..]))
  }

  /** Replace every link value. */
  function Map(d: Doc, f: Bytes -> Bytes): Doc {
    match d
    case End => End
    case Text(b, rest) => Text(b, Map(rest, f))
    case Link(quote, value, rest) => Link(quote, f(value), Map(rest, f))
  }

  /** The unbounded rewrite. */
  function Rewrite(s: Bytes, f: Bytes -> Bytes): Bytes {
    Show(Map(Scan(s), f))
  }

  /** A match is the text of a link in front of what follows it. */
  lemma HitIsLink(s: Bytes)
    requires Hit(s).Some?
    ensures s == ShowLink(s[5], s[6..Hit(s).value]) + s[Hit(s).value + 1..]
    ensures s[6..Hit(s).value] != [] && s[5] !in s[6..Hit(s).value]
  {
  }

  lemma {:induction false} ScanShows(s: Bytes)
    ensures Show(Scan(s)) == s
    decreases |s|
  {
    if s != [] {
      var hit := Hit(s);
      if hit.None? {
        ScanShows(s[1..]);
      } else {
        ScanShows(s[hit.value + 1..]);
        HitIsLink(s);
      }
    }
  }

  /*** Re-scanning the rewritten document ***/

  /** Rewriting a value leaves it non-empty and brings in no quote character. */
  ghost predicate Gentle(f: Bytes -> Bytes) {
    forall v: Bytes :: v != [] ==> f(v) != [] && forall q: Byte :: IsQuote(q) && q in f(v) ==> q in v
  }

  /** Scanned values are non-empty and free of their own quote. */
  predicate WellScanned(d: Doc) {
    match d
    case End => true
    case Text(_, rest) => WellScanned(rest)
    case Link(quote, value, rest) => IsQuote(quote) && value != [] && quote !in value && WellScanned(rest)
  }

  lemma {:induction false} ScanIsWell(s: Bytes)
    ensures WellScanned(Scan(s))
    decreases |s|
  {
    if s != [] {
      var hit := Hit(s);
      if hit.None? {
        ScanIsWell(s[1..]);
      } else {
        ScanIsWell(s[hit.value + 1..]);
      }
    }
  }

  lemma {:induction false} QuotesComeFrom(d: Doc, f: Bytes -> Bytes, q: Byte)
    requires Gentle(f) && WellScanned(d) && IsQuote(q) && q in Show(Map(d, f))
    ensures q in Show(d)
  {
    match d
    case End =>
    case Text(b, rest) =>
      if q != b {
        QuotesComeFrom(rest, f, q);
      }
    case Link(quote, value, rest) =>
      if q in f(value) {
        assert q in value;
      } else if q != quote {
        assert q !in ShowLink(quote, f(value));
        QuotesComeFrom(rest, f, q);
      }
  }

  function Take(s: Bytes, n: nat): Bytes {
    if |s| < n then s else s[..n]
  }

  /** Text up to the opening quote of the first link is untouched. */
  lemma {:induction false} SamePrefix(d: Doc, f: Bytes -> Bytes, n: nat)
    requires n <= 6
    ensures Take(Show(d), n) == Take(Show(Map(d, f)), n)
    ensures |Show(d)| < n ==> Show(d) == Show(Map(d, f))
  {
    match d
    case End =>
    case Text(b, rest) =>
      if n > 0 {
        SamePrefix(rest, f, n - 1);
        assert Take(Show(d), n) == [b] + Take(Show(rest), n - 1);
        assert Take(Show(Map(d, f)), n) == [b] + Take(Show(Map(rest, f)), n - 1);
      }
    case Link(quote, value, rest) =>
      assert Show(d)[..6] == HREF + [quote] == Show(Map(d, f))[..6];
      assert Take(Show(d), n) == Show(d)[..6][..n];
      assert Take(Show(Map(d, f)), n) == Show(Map(d, f))[..6][..n];
  }

  lemma {:induction false} QuotesComeAfter(d: Doc, f: Bytes -> Bytes, q: Byte, n: nat)
    requires Gentle(f) && WellScanned(d) && IsQuote(q) && n <= 5
    requires n <= |Show(Map(d, f))| && q in Show(Map(d, f))[n..]
    ensures n <= |Show(d)| && q in Show(d)[n..]
  {
    var t := Show(Map(d, f));
    match d
    case End =>
    case Text(b, rest) =>
      if n == 0 {
        QuotesComeFrom(d, f, q);
      } else {
        assert t[n..] == Show(Map(rest, f))[n - 1..];
        QuotesComeAfter(rest, f, q, n - 1);
        assert Show(d)[n..] == Show(rest)[n - 1..];
      }
    case Link(quote, value, rest) =>
      QuotesComeFrom(d, f, q);
      LinkQuotesAfter(quote, value, Show(rest), q, n);
  }

  /** The quotes of a link come after its `href=`. */
  lemma LinkQuotesAfter(quote: Byte, value: Bytes, rest: Bytes, q: Byte, n: nat)
    requires IsQuote(q) && n <= 5 && q in ShowLink(quote, value) + rest
    ensures q in (ShowLink(quote, value) + rest)[n..]
  {
  }

  lemma {:induction false} FindIs(s: Bytes, b: Byte, from: nat, i: nat)
    requires from <= i < |s| && s[i] == b && b !in s[from..i]
    ensures Find(s, b, from) == Some(i)
    decreases i - from
  {
  }

  /** No link appears in front of, or across, the links that were there. */
  lemma NoNewHit(b: Byte, d: Doc, f: Bytes -> Bytes)
    requires Gentle(f) && WellScanned(d) && Hit([b] + Show(d)).None?
    ensures Hit([b] + Show(Map(d, f))).None?
  {
    var s, t := [b] + Show(d), [b] + Show(Map(d, f));
    if Hit(t).Some? {
      var q := t[5];
      SamePrefix(d, f, 6);
      assert |Show(d)| >= 6;
      assert s[..7] == [b] + Take(Show(d), 6) == [b] + Take(Show(Map(d, f)), 6) == t[..7];
      assert s[5] == s[..7][5] == t[5] && s[6] == s[..7][6] == t[6];
      assert s[..5] == s[..7][..5] == t[..5];
      assert t[6..] == Show(Map(d, f))[5..] && s[6..] == Show(d)[5..];
      assert t[Hit(t).value] == t[6..][Hit(t).value - 6];
      QuotesComeAfter(d, f, q, 5);
    }
  }

  lemma LinkHits(q: Byte, v: Bytes, rest: Bytes)
    requires IsQuote(q) && v != [] && q !in v
    ensures Hit(ShowLink(q, v) + rest) == Some(6 + |v|)
    ensures
      var t := ShowLink(q, v) + rest;
      t[5] == q && t[6..6 + |v|] == v && t[7 + |v|..] == rest
  {
    var t := ShowLink(q, v) + rest;
    assert t[..5] == HREF;
    assert t[6..6 + |v|] == v;
    FindIs(t, q, 6, 6 + |v|);
  }

  /**
   * Scanning the rewritten document finds the same links in the same places with the same
   * quotes, each value replaced by its rewrite, and the same bytes between them.
   */
  lemma {:induction false} Rescan(s: Bytes, f: Bytes -> Bytes)
    requires Gentle(f)
    ensures Scan(Rewrite(s, f)) == Map(Scan(s), f)
    decreases |s|
  {
    if s == [] {
      RescanEmpty(f);
    } else if Hit(s).None? {
      Rescan(s[1..], f);
      RescanText(s, f);
    } else {
      Rescan(s[Hit(s).value + 1..], f);
      RescanLink(s, f);
    }
  }

  lemma RescanEmpty(f: Bytes -> Bytes)
    ensures Scan(Rewrite([], f)) == Map(Scan([]), f)
  {
  }

  lemma RescanText(s: Bytes, f: Bytes -> Bytes)
    requires Gentle(f) && s != [] && Hit(s).None? && Scan(Rewrite(s[1..], f)) == Map(Scan(s[1..]), f)
    ensures Scan(Rewrite(s, f)) == Map(Scan(s), f)
  {
    var b, rest := s[0], s[1..];
    assert s == [b] + rest;
    StillNoHit(b, rest, f);
    ScanText(b, Rewrite(rest, f));
    ScanText(b, rest);
  }

  lemma StillNoHit(b: Byte, rest: Bytes, f: Bytes -> Bytes)
    requires Gentle(f) && Hit([b] + rest).None?
    ensures Hit([b] + Rewrite(rest, f)).None?
  {
    ScanShows(rest);
    ScanIsWell(rest);
    NoNewHit(b, Scan(rest), f);
  }

  lemma ScanText(b: Byte, rest: Bytes)
    requires Hit([b] + rest).None?
    ensures Scan([b] + rest) == Text(b, Scan(rest))
  {
  }

  lemma RescanLink(s: Bytes, f: Bytes -> Bytes)
    requires Gentle(f) && s != [] && Hit(s).Some?
    requires Scan(Rewrite(s[Hit(s).value + 1..], f)) == Map(Scan(s[Hit(s).value + 1..]), f)
    ensures Scan(Rewrite(s, f)) == Map(Scan(s), f)
  {
    HitIsLink(s);
    var n := Hit(s).value;
    var q, v := s[5], s[6..n];
    assert f(v) != [] && q !in f(v);
    LinkHits(q, f(v), Rewrite(s[n + 1..], f));
  }

  /*** The bounded rewrite ***/

  function TextThen(gap: Bytes, d: Doc): Doc {
    if gap == [] then d else Text(gap[0], TextThen(gap[1..], d))
  }

  lemma ShowText(b: Byte, rest: Doc, f: Bytes -> Bytes)
    ensures Show(Map(Text(b, rest), f)) == [b] + Show(Map(rest, f))
  {
  }

  lemma GapText(gap: Bytes, d: Doc)
    requires gap != []
    ensures TextThen(gap, d) == Text(gap[0], TextThen(gap[1..], d))
  {
  }

  lemma Prepend(gap: Bytes, shown: Bytes, tail: Bytes)
    requires gap != [] && shown == gap[1..] + tail
    ensures [gap[0]] + shown == gap + tail
  {
  }

  lemma {:induction false} ShowGap(gap: Bytes, d: Doc, f: Bytes -> Bytes)
    ensures Show(Map(TextThen(gap, d), f)) == gap + Show(Map(d, f))
  {
    if gap == [] {
      assert TextThen(gap, d) == d;
    } else {
      var rest := TextThen(gap[1..], d);
      ShowGap(gap[1..], d, f);
      GapText(gap, d);
      ShowText(gap[0], rest, f);
      Prepend(gap, Show(Map(rest, f)), Show(Map(d, f)));
    }
  }

  datatype Match = Match(start: nat, end: nat)

  /** `m` is the next match at or after `from`, or there is none. */
  ghost predicate IsNext(s: Bytes, from: nat, m: Option<Match>)
    requires from <= |s|
  {
    match m
    case None => Scan(s[from..]) == TextThen(s[from..], End)
    case Some(Match(start, end)) =>
      && from <= start && start + 8 <= end <= |s| && s[start..start + 5] == HREF && IsQuote(s[start + 5])
      && Scan(s[from..]) == TextThen(s[from..start], Link(s[start + 5], s[start + 6..end - 1], Scan(s[end..])))
  }

  /** The next match, found by trying every position. */
  function Next(s: Bytes, from: nat): Option<Match>
    requires from <= |s|
    decreases |s| - from
  {
    if from == |s| then None
    else
      var hit := Hit(s[from..]);
      if hit.Some? then Some(Match(from, from + hit.value + 1)) else Next(s, from + 1)
  }

  lemma HitInPlace(s: Bytes, i: nat)
    requires i <= |s| && Hit(s[i..]).Some?
    ensures
      var rest, n := s[i..], Hit(s[i..]).value;
      && i + n + 1 <= |s| && s[i..i + 5] == HREF && rest[5] == s[i + 5]
      && Scan(rest) == Link(s[i + 5], s[i + 6..i + n], Scan(s[i + n + 1..]))
  {
  }

  /** A match starts here and ends at its closing quote. */
  lemma MatchHere(s: Bytes, i: nat)
    requires i <= |s| && Hit(s[i..]).Some?
    ensures IsNext(s, i, Some(Match(i, i + Hit(s[i..]).value + 1)))
  {
    HitInPlace(s, i);
  }

  /** No match starts here: the byte joins the gap. */
  lemma SkipByte(s: Bytes, from: nat, m: Option<Match>)
    requires from < |s| && Hit(s[from..]).None? && IsNext(s, from + 1, m)
    ensures IsNext(s, from, m)
  {
    var rest := s[from..];
    assert rest[1..] == s[from + 1..];
    if m.Some? {
      assert s[from..m.value.start][1..] == s[from + 1..m.value.start];
    }
  }

  lemma {:induction false} NextIsNext(s: Bytes, from: nat)
    requires from <= |s|
    ensures IsNext(s, from, Next(s, from))
    decreases |s| - from
  {
    if from < |s| {
      if Hit(s[from..]).Some? {
        MatchHere(s, from);
      } else {
        NextIsNext(s, from + 1);
        SkipByte(s, from, Next(s, from + 1));
      }
    }
  }

  /** Tries every position from `from` on. */
  method Search(s: Bytes, from: nat) returns (m: Option<Match>)
    requires from <= |s|
    ensures m == Next(s, from)
  {
    var i := from;
    while i < |s|
      invariant from <= i <= |s| && Next(s, i) == Next(s, from)
    {
      var hit := Hit(s[i..]);
      if hit.Some? {
        return Some(Match(i, i + hit.value + 1));
      }
      i := i + 1;
    }
    return None;
  }

  /** One step of `captures_iter`: the leftmost match from `from` on. */
  method NextMatch(s: Bytes, from: nat) returns (m: Option<Match>)
    requires from <= |s|
    ensures m == Next(s, from) && IsNext(s, from, m)
  {
    m := Search(s, from);
    NextIsNext(s, from);
  }

  lemma NextRewrites(s: Bytes, from: nat, m: Match, f: Bytes -> Bytes)
    requires from <= |s| && IsNext(s, from, Some(m))
    ensures Rewrite(s[from..], f) ==
            s[from..m.start] + ShowLink(s[m.start + 5], f(s[m.start + 6..m.end - 1])) + Rewrite(s[m.end..], f)
  {
    ShowGap(s[from..m.start], Link(s[m.start + 5], s[m.start + 6..m.end - 1], Scan(s[m.end..])), f);
  }

  lemma LastRewrites(s: Bytes, from: nat, f: Bytes -> Bytes)
    requires from <= |s| && IsNext(s, from, None)
    ensures Rewrite(s[from..], f) == s[from..]
  {
    ShowGap(s[from..], End, f);
  }

  datatype Error = NotUtf8 | TooLong

  /** Appends the four pieces of one link, stopping at the first that does not fit. */
  method PutLink(output: LO.Output, gap: Bytes, quote: Byte, value: Bytes) returns (ok: bool)
    requires output.Valid()
    modifies output
    ensures output.Valid()
    ensures ok == (|old(output.bytes)| + |gap + ShowLink(quote, value)| <= output.maxLen)
    ensures ok ==> output.bytes == old(output.bytes) + (gap + ShowLink(quote, value))
  {
    FourPieces(output.bytes, gap, quote, value);
    ok := output.Extend(gap);
    if ok {
      ok := output.Extend(HREF + [quote]);
    }
    if ok {
      ok := output.Extend(value);
    }
    if ok {
      ok := output.Extend([quote]);
    }
  }

  lemma FourPieces(before: Bytes, gap: Bytes, quote: Byte, value: Bytes)
    ensures before + gap + (HREF + [quote]) + value + [quote] == before + (gap + ShowLink(quote, value))
    ensures |gap + ShowLink(quote, value)| == |gap| + |HREF + [quote]| + |value| + 1
  {
    var head := HREF + [quote];
    assert before + gap + head == before + (gap + head);
    assert before + (gap + head) + value == before + (gap + head + value);
    assert before + (gap + head + value) + [quote] == before + (gap + head + value + [quote]);
    assert gap + head + value + [quote] == gap + (head + value + [quote]);
  }

  /** The output so far, with the rewrite of the rest, is the rewrite of the whole. */
  ghost predicate Spliced(body: Bytes, f: Bytes -> Bytes, done: Bytes, from: nat) {
    from <= |body| && Rewrite(body, f) == done + Rewrite(body[from..], f)
  }

  function Piece(body: Bytes, f: Bytes -> Bytes, from: nat, m: Match): Bytes
    requires from <= m.start && m.start + 8 <= m.end <= |body|
  {
    body[from..m.start] + ShowLink(body[m.start + 5], f(body[m.start + 6..m.end - 1]))
  }

  lemma PieceWritten(body: Bytes, f: Bytes -> Bytes, done: Bytes, from: nat, m: Match)
    requires Spliced(body, f, done, from) && IsNext(body, from, Some(m))
    ensures Spliced(body, f, done + Piece(body, f, from, m), m.end)
    ensures |Rewrite(body, f)| >= |done| + |Piece(body, f, from, m)|
  {
    NextRewrites(body, from, m, f);
    var piece, rest := Piece(body, f, from, m), Rewrite(body[m.end..], f);
    assert done + (piece + rest) == done + piece + rest;
  }

  lemma LastWritten(body: Bytes, f: Bytes -> Bytes, done: Bytes, from: nat)
    requires Spliced(body, f, done, from) && IsNext(body, from, None)
    ensures Rewrite(body, f) == done + body[from..]
  {
    LastRewrites(body, from, f);
  }

  /** The splicing loop: every byte between links copied, every link replaced, until something does not fit. */
  method Splice(body: Bytes, f: Bytes -> Bytes, output: LO.Output) returns (ok: bool)
    requires output.Valid() && output.bytes == []
    modifies output
    ensures ok == (|Rewrite(body, f)| <= output.maxLen)
    ensures ok ==> output.bytes == Rewrite(body, f)
  {
    var previousEnd := 0;
    var m := NextMatch(body, previousEnd);
    assert body[0..] == body;
    while m.Some?
      invariant Spliced(body, f, output.bytes, previousEnd) && IsNext(body, previousEnd, m)
      invariant output.Valid()
      decreases |body| - previousEnd
    {
      ok := SpliceOne(body, f, output, previousEnd, m.value);
      if !ok {
        return;
      }
      previousEnd := m.value.end;
      m := NextMatch(body, previousEnd);
    }
    LastWritten(body, f, output.bytes, previousEnd);
    ok := output.Extend(body[previousEnd..]);
  }

  /** One turn of the loop: the gap before the match and the rewritten link. */
  method SpliceOne(body: Bytes, f: Bytes -> Bytes, output: LO.Output, from: nat, m: Match) returns (ok: bool)
    requires output.Valid() && Spliced(body, f, output.bytes, from) && IsNext(body, from, Some(m))
    modifies output
    ensures output.Valid()
    ensures ok ==> Spliced(body, f, output.bytes, m.end)
    ensures !ok ==> |Rewrite(body, f)| > output.maxLen
  {
    PieceWritten(body, f, output.bytes, from, m);
    ok := PutLink(output, body[from..m.start], body[m.start + 5], f(body[m.start + 6..m.end - 1]));
  }

  /**
   * `rewrite_pypi_html`: exactly the unbounded rewrite when that fits, an error otherwise.
   * `utf8` is whether the body decodes as text.
   */
  method RewritePypiHtml(body: Bytes, utf8: bool, f: Bytes -> Bytes, maxLen: nat) returns (r: Result<Bytes, Error>)
    ensures !utf8 ==> r == Err(NotUtf8)
    ensures utf8 ==>
      r == if |Rewrite(body, f)| <= maxLen && |Rewrite(body, f)| <= MAX_METADATA_BODY_LEN
           then Ok(Rewrite(body, f)) else Err(TooLong)
  {
    if !utf8 {
      return Err(NotUtf8);
    }
    var limit := if maxLen < MAX_METADATA_BODY_LEN then maxLen else MAX_METADATA_BODY_LEN;
    var output := new LO.Output(limit);
    var ok := Splice(body, f, output);
    return if ok then Ok(output.bytes) else Err(TooLong);
  }
}
