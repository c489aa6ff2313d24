/**
 * The matches of `href="([^"]+)"|href='([^']+)'` in bytes (src/routes.rs:473-476), and the whole
 * page rewrite in terms of them.
 */
module HtmlMatches {
  import opened Basics
  import opened PypiHtml

  /** `href=`, a quote, one or more bytes that are not that quote, and that quote again. */
  predicate IsMatch(s: Bytes, start: nat, end: nat) {
    && start + 8 <= end <= |s|
    && s[start..start + 5] == Ascii("href=")
    && (s[start + 5] == '"' as int || s[start + 5] == '\'' as int)
    && s[end - 1] == s[start + 5]
    && s[start + 5] !in s[start + 6..end - 1]
  }

  lemma HrefSpelled()
    ensures HREF == Ascii("href=")
  {
  }

  lemma FindExact(s: Bytes, b: Byte, from: nat, i: nat)
    requires from <= i < |s|
    ensures Find(s, b, from) == Some(i) <==> s[i] == b && b !in s[from..i]
  {
    if s[i] == b && b !in s[from..i] {
      FindIs(s, b, from, i);
    }
  }

  /** The match at a position, and only it. */
  lemma HitExact(s: Bytes, n: nat)
    ensures Hit(s) == Some(n) <==> IsMatch(s, 0, n + 1)
  {
    HrefSpelled();
    if |s| >= 8 && 7 <= n < |s| {
      FindExact(s, s[5], 6, n);
    }
    if |s| >= 8 && Hit(s) == Some(n) {
      assert n < |s|;
    }
  }

  lemma MatchInRest(s: Bytes, i: nat, end: nat)
    requires i <= end <= |s|
    ensures IsMatch(s[i..], 0, end - i) <==> IsMatch(s, i, end)
  {
    var rest := s[i..];
    if i + 8 <= end {
      assert rest[..5] == s[i..i + 5];
      assert rest[6..end - i - 1] == s[i + 6..end - 1];
    }
  }

  lemma HitAt(s: Bytes, i: nat, end: nat)
    requires i < |s|
    ensures end > i && Hit(s[i..]) == Some(end - i - 1) <==> IsMatch(s, i, end)
  {
    if end > i {
      HitExact(s[i..], end - i - 1);
      if end <= |s| {
        MatchInRest(s, i, end);
      }
    }
  }

  /** No match starts at this position. */
  ghost predicate NoneAt(s: Bytes, i: nat) {
    forall end :: !IsMatch(s, i, end)
  }

  /** The leftmost match from a position on. */
  ghost predicate Leftmost(s: Bytes, from: nat, m: Option<Match>) {
    match m
    case None => forall i :: from <= i < |s| ==> NoneAt(s, i)
    case Some(Match(start, end)) =>
      from <= start && IsMatch(s, start, end) && forall i :: from <= i < start ==> NoneAt(s, i)
  }

  lemma {:induction false} NextIsLeftmost(s: Bytes, from: nat)
    requires from <= |s|
    ensures Leftmost(s, from, Next(s, from))
    decreases |s| - from
  {
    if from < |s| {
      var hit := Hit(s[from..]);
      if hit.Some? {
        HitAt(s, from, from + hit.value + 1);
      } else {
        forall end ensures !IsMatch(s, from, end) {
          HitAt(s, from, end);
        }
        NextIsLeftmost(s, from + 1);
      }
    }
  }

  /** A position has one leftmost match. */
  lemma LeftmostIsNext(s: Bytes, from: nat, m: Option<Match>)
    requires from <= |s| && Leftmost(s, from, m)
    ensures m == Next(s, from)
  {
    NextIsLeftmost(s, from);
    var n := Next(s, from);
    if m.Some? {
      MatchIsThere(s, from, m.value);
    }
    if n.Some? {
      MatchIsThere(s, from, n.value);
    }
    if m.Some? && n.Some? {
      var a, b := m.value, n.value;
      assert a.start < b.start ==> NoneAt(s, a.start);
      assert b.start < a.start ==> NoneAt(s, b.start);
      OneMatch(s, a.start, a.end, b.end);
    }
  }

  lemma MatchIsThere(s: Bytes, from: nat, m: Match)
    requires from <= m.start && IsMatch(s, m.start, m.end)
    ensures !Leftmost(s, from, None)
  {
    assert !NoneAt(s, m.start);
  }

  lemma OneMatch(s: Bytes, i: nat, a: nat, b: nat)
    requires IsMatch(s, i, a)
    ensures IsMatch(s, i, b) ==> a == b
  {
    HitAt(s, i, a);
    HitAt(s, i, b);
  }

  /** A page without a match is unchanged. */
  lemma NoMatchNoChange(s: Bytes, f: Bytes -> Bytes)
    requires forall i :: 0 <= i < |s| ==> NoneAt(s, i)
    ensures Rewrite(s, f) == s
  {
    LeftmostIsNext(s, 0, None);
    NextIsNext(s, 0);
    LastRewrites(s, 0, f);
    assert s[0..] == s;
  }

  /**
   * Otherwise the bytes before the leftmost match stay, its value is rewritten between the same
   * quotes, and the rest of the page follows by the same rule.
   */
  lemma LeftmostMatchIsRewritten(s: Bytes, f: Bytes -> Bytes, start: nat, end: nat)
    requires Leftmost(s, 0, Some(Match(start, end)))
    ensures
      var quote := [s[start + 5]];
      Rewrite(s, f) == s[..start] + Ascii("href=") + quote + f(s[start + 6..end - 1]) + quote + Rewrite(s[end..], f)
  {
    var m := Match(start, end);
    LeftmostIsNext(s, 0, Some(m));
    NextIsNext(s, 0);
    NextRewrites(s, 0, m, f);
    HrefSpelled();
    assert s[0..] == s && s[0..start] == s[..start];
    Regroup(s[..start], HREF, [s[start + 5]], f(s[start + 6..end - 1]), Rewrite(s[end..], f));
  }

  lemma Regroup(gap: Bytes, name: Bytes, quote: Bytes, value: Bytes, rest: Bytes)
    ensures gap + (name + quote + value + quote) + rest == gap + name + quote + value + quote + rest
  {
    assert gap + (name + quote + value + quote) == gap + name + quote + value + quote;
  }
}
