/**
 * What the vocabulary of CanonicalPath means in bytes, and when the normaliser accepts:
 * src/routes.rs:377-471, after sections 2.1, 2.3 and 6.2.2 of RFC 3986.
 */
module CanonicalForm {
  import opened Basics
  import opened CanonicalPath

  const LOWER_HEX := "0123456789abcdef"
  const UPPER_HEX := "0123456789ABCDEF"

  /*** Spelling ***/

  /** `c` is a hexadecimal digit for `n`, in either case. */
  predicate DigitOf(c: Byte, n: nat) {
    n < 16 && (c == LOWER_HEX[n] as int || c == UPPER_HEX[n] as int)
  }

  lemma HexValueExact(c: Byte, n: nat)
    ensures HexValue(c) == Some(n) <==> DigitOf(c, n)
  {
  }

  /** The letters, digits and marks of section 2.3. */
  predicate UnreservedChar(b: Byte) {
    || 'A' as int <= b <= 'Z' as int || 'a' as int <= b <= 'z' as int || '0' as int <= b <= '9' as int
    || b in Ascii("-._~")
  }

  lemma UnreservedExact(b: Byte)
    ensures IsUnreserved(b) <==> UnreservedChar(b)
  {
    var marks := Ascii("-._~");
    assert marks[0] == 0x2d && marks[1] == 0x2e && marks[2] == 0x5f && marks[3] == 0x7e;
  }

  lemma DelimiterExact(b: Byte)
    ensures IsDelimiter(b) <==> b in Ascii("?#\\/")
  {
    var marks := Ascii("?#\\/");
    assert marks[0] == 0x3f && marks[1] == 0x23 && marks[2] == 0x5c && marks[3] == 0x2f;
  }

  /** How one token may be written: a byte other than `%` as itself, any byte as `%` and two digits. */
  predicate Spells(s: Bytes, t: Token) {
    match t
    case Lit(b) => s == [b] && b != '%' as int
    case Esc(b) => |s| == 3 && s[0] == '%' as int && DigitOf(s[1], b / 16) && DigitOf(s[2], b % 16)
  }

  function Room(t: Token): nat {
    if t.Lit? then 1 else 3
  }

  /** The tokens written one after the other. */
  predicate SpellsAll(p: Bytes, ts: seq<Token>)
    decreases |ts|
  {
    if ts == [] then p == []
    else Room(ts[0]) <= |p| && Spells(p[..Room(ts[0])], ts[0]) && SpellsAll(p[Room(ts[0])..], ts[1..])
  }

  lemma EscapeExact(high: Byte, low: Byte, b: Byte)
    ensures
      (HexValue(high).Some? && HexValue(low).Some? && HexValue(high).value * 16 + HexValue(low).value == b)
      <==> (DigitOf(high, b / 16) && DigitOf(low, b % 16))
  {
    HexValueExact(high, b / 16);
    HexValueExact(low, b % 16);
    if HexValue(high).Some? && HexValue(low).Some? && HexValue(high).value * 16 + HexValue(low).value == b {
      assert b / 16 == HexValue(high).value && b % 16 == HexValue(low).value;
    }
  }

  lemma FirstExact(p: Bytes, t: Token)
    requires p != []
    ensures First(p) == Some((t, Room(t))) <==> Room(t) <= |p| && Spells(p[..Room(t)], t)
    ensures First(p).Some? ==> First(p).value.1 == Room(First(p).value.0)
  {
    match t
    case Lit(b) => assert p[..1] == [p[0]];
    case Esc(b) =>
      if |p| >= 3 {
        assert p[..3] == [p[0], p[1], p[2]];
        EscapeExact(p[1], p[2], b);
      }
  }

  /** Reading tokens is exactly undoing the spelling. */
  lemma {:induction false} TokensExact(p: Bytes, ts: seq<Token>)
    ensures Tokens(p) == Some(ts) <==> SpellsAll(p, ts)
    decreases |p|
  {
    if p != [] && ts != [] {
      var t := ts[0];
      FirstExact(p, t);
      if Room(t) <= |p| {
        TokensExact(p[Room(t)..], ts[1..]);
        SplitOff(p, ts);
      } else {
        Short(p, ts);
      }
    }
  }

  lemma SplitOff(p: Bytes, ts: seq<Token>)
    requires p != [] && ts != [] && Room(ts[0]) <= |p|
    ensures Tokens(p) == Some(ts)
       <==> First(p) == Some((ts[0], Room(ts[0]))) && Tokens(p[Room(ts[0])..]) == Some(ts[1..])
  {
    FirstExact(p, ts[0]);
    assert [ts[0]] + ts[1..] == ts;
    if Tokens(p) == Some(ts) {
      var first, n := First(p).value.0, First(p).value.1;
      assert Tokens(p[n..]).Some? && ts == [first] + Tokens(p[n..]).value;
      assert ts[1..] == Tokens(p[n..]).value;
    }
  }

  lemma Short(p: Bytes, ts: seq<Token>)
    requires p != [] && ts != [] && Room(ts[0]) > |p|
    ensures Tokens(p) != Some(ts)
  {
    FirstExact(p, ts[0]);
  }

  /** Plain literals are written as they are, encoded bytes with upper-case digits. */
  lemma EmitExact(t: Token)
    requires t.Lit? ==> t.b < 128
    ensures Emit(t) == match t
      case Lit(b) => [b]
      case Esc(b) => ['%' as int, UPPER_HEX[b / 16] as int, UPPER_HEX[b % 16] as int]
  {
    if t.Esc? {
      HexValueExact(HexDigit(t.b / 16), t.b / 16);
      HexValueExact(HexDigit(t.b % 16), t.b % 16);
      UpperDigit(t.b / 16);
      UpperDigit(t.b % 16);
    }
  }

  lemma UpperDigit(n: nat)
    requires n < 16
    ensures HexDigit(n) == UPPER_HEX[n] as int
  {
  }

  /*** The normal form ***/

  /** The same bytes; what stays encoded is exactly what was encoded and is not unreserved. */
  ghost predicate NormalOf(ts: seq<Token>, us: seq<Token>) {
    && |us| == |ts|
    && forall i :: 0 <= i < |ts| ==> us[i].b == ts[i].b && us[i].Esc? == (ts[i].Esc? && !UnreservedChar(ts[i].b))
  }

  lemma NormalExact(ts: seq<Token>, us: seq<Token>)
    ensures us == NormalAll(ts) <==> NormalOf(ts, us)
  {
    forall i | 0 <= i < |ts| ensures NormalAll(ts)[i] == Normal(ts[i]) {
    }
    forall i | 0 <= i < |ts| ensures IsUnreserved(ts[i].b) <==> UnreservedChar(ts[i].b) {
      UnreservedExact(ts[i].b);
    }
    if NormalOf(ts, us) {
      forall i | 0 <= i < |ts| ensures us[i] == NormalAll(ts)[i] {
      }
    }
  }

  /** `q` is the canonical path of `p`: canonical, and the same text but for needless encodings and digit case. */
  ghost predicate IsFormOf(p: Bytes, q: Bytes) {
    && PathOk(q) && Tokens(p).Some? && Tokens(q).Some?
    && NormalOf(Tokens(p).value, Tokens(q).value)
  }

  lemma NormalTwice(ts: seq<Token>)
    ensures NormalAll(NormalAll(ts)) == NormalAll(ts)
  {
    var us := NormalAll(ts);
    forall i | 0 <= i < |us| ensures NormalAll(us)[i] == us[i] {
      assert us[i] == Normal(ts[i]);
    }
  }

  /** The normaliser returns `q` exactly when `q` is the canonical path of what follows the slash. */
  lemma NormaliserExact(path: Bytes, q: Bytes)
    ensures RewritePath(path) == Some(q)
       <==> path != [] && path[0] == '/' as int && IsFormOf(path[1..], q)
  {
    if path != [] && path[0] == SLASH {
      var p := path[1..];
      assert path == [SLASH] + p;
      if RewritePath(path) == Some(q) {
        AcceptedReadsBack(p);
        NormalExact(Tokens(p).value, Tokens(q).value);
      }
      if IsFormOf(p, q) {
        NormalExact(Tokens(p).value, Tokens(q).value);
        NormalTwice(Tokens(p).value);
        CanonicalIsFixed(q);
      }
    }
  }

  /** The normaliser accepts a path exactly when it has a canonical path. */
  lemma AcceptedExactly(path: Bytes)
    ensures RewritePath(path).Some? <==> path != [] && path[0] == '/' as int && exists q :: IsFormOf(path[1..], q)
  {
    if RewritePath(path).Some? {
      NormaliserExact(path, RewritePath(path).value);
    }
    if path != [] && path[0] == SLASH {
      forall q | IsFormOf(path[1..], q) ensures RewritePath(path).Some? {
        NormaliserExact(path, q);
      }
    }
  }

  /*** Canonical segments and paths ***/

  /** Printable and no delimiter; encoded only if neither unreserved nor a delimiter. */
  predicate Permitted(t: Token) {
    match t
    case Lit(b) => '!' as int <= b <= '~' as int && b != '%' as int && b !in Ascii("?#\\/")
    case Esc(b) => !UnreservedChar(b) && b !in Ascii("?#\\/")
  }

  lemma PermittedExact(t: Token)
    ensures TokenOk(t) <==> Permitted(t)
  {
    UnreservedExact(t.b);
    DelimiterExact(t.b);
  }

  /** A canonical segment: no dot segment, permitted tokens only, digits in upper case. */
  lemma SegmentExact(s: Bytes)
    ensures SegmentOk(s) <==>
      && s != [] && s != Ascii(".") && s != Ascii("..")
      && Tokens(s).Some? && EmitAll(Tokens(s).value) == s
      && forall i :: 0 <= i < |Tokens(s).value| ==> Permitted(Tokens(s).value[i])
  {
    assert Ascii(".") == [DOT] && Ascii("..") == [DOT, DOT];
    if SegmentOk(s) {
      var ts :| EmitAll(ts) == s && TokensOk(ts);
      OkReadsBack(ts);
      forall i | 0 <= i < |ts| ensures Permitted(ts[i]) {
        assert TokenOk(ts[i]);
        PermittedExact(ts[i]);
      }
    }
    if Tokens(s).Some? && forall i :: 0 <= i < |Tokens(s).value| ==> Permitted(Tokens(s).value[i]) {
      var ts := Tokens(s).value;
      forall i | 0 <= i < |ts| ensures TokenOk(ts[i]) {
        PermittedExact(ts[i]);
      }
    }
  }

  lemma SegmentMakesPath(s: Bytes)
    requires SegmentOk(s)
    ensures PathOk(s)
  {
    SegmentHoldsNoDelimiter(s, SLASH);
    NoSlashNoSplit(s);
  }

  lemma PartsMakePath(s: Bytes, rest: Bytes)
    requires SegmentOk(s) && (rest == [] || PathOk(rest))
    ensures PathOk(s + Ascii("/") + rest)
  {
    assert Ascii("/") == [SLASH];
    SegmentHoldsNoDelimiter(s, SLASH);
    SplitAtSlash(s, rest);
    var parts := [s] + Split(rest);
    assert parts[|parts| - 1] == Split(rest)[|Split(rest)| - 1];
    forall i | 0 <= i < |parts| - 1 ensures SegmentOk(parts[i]) {
      if i > 0 {
        assert parts[i] == Split(rest)[i - 1];
      }
    }
  }

  lemma PathHasParts(p: Bytes)
    requires PathOk(p)
    ensures SegmentOk(p) || exists s, rest :: Splits(p, s, rest) && (rest == [] || PathOk(rest))
  {
    SplitHead(p);
    var segments := Split(p);
    if |segments| > 1 {
      var rest := p[|segments[0]| + 1..];
      assert Ascii("/") == [SLASH];
      assert p == segments[0] + [SLASH] + rest;
      RestIsPath(p);
      assert Splits(p, segments[0], rest);
    }
  }

  /** A canonical path is a segment, or a segment, a slash, and nothing or a canonical path. */
  lemma PathExact(p: Bytes)
    ensures PathOk(p) <==> SegmentOk(p) || exists s, rest :: Splits(p, s, rest) && (rest == [] || PathOk(rest))
  {
    if PathOk(p) {
      PathHasParts(p);
    }
    if SegmentOk(p) {
      SegmentMakesPath(p);
    }
    forall s, rest | Splits(p, s, rest) && (rest == [] || PathOk(rest)) ensures PathOk(p) {
      PartsMakePath(s, rest);
    }
  }

  ghost predicate Splits(p: Bytes, s: Bytes, rest: Bytes) {
    p == s + Ascii("/") + rest && SegmentOk(s)
  }

  lemma {:induction false} NoSlashNoSplit(p: Bytes)
    requires SLASH !in p
    ensures Split(p) == [p]
  {
    if p != [] {
      NoSlashNoSplit(p[1..]);
      assert [p[0]] + p[1..] == p;
    }
  }

  lemma {:induction false} SplitAtSlash(s: Bytes, rest: Bytes)
    requires SLASH !in s
    ensures Split(s + [SLASH] + rest) == [s] + Split(rest)
  {
    var p := s + [SLASH] + rest;
    if s == [] {
      assert p[1..] == rest;
    } else {
      assert p[1..] == s[1..] + [SLASH] + rest;
      SplitAtSlash(s[1..], rest);
      assert [s[0]] + s[1..] == s;
    }
  }

  lemma RestIsPath(p: Bytes)
    requires PathOk(p) && |Split(p)| > 1
    ensures SegmentOk(Split(p)[0])
    ensures
      var n := |Split(p)[0]| + 1;
      n <= |p| && (p[n..] == [] || PathOk(p[n..]))
  {
    SplitHead(p);
    var segments, n := Split(p), |Split(p)[0]| + 1;
    assert Split(p[n..]) == segments[1..];
    forall i | 0 <= i < |segments| - 2 ensures SegmentOk(segments[1..][i]) {
      assert segments[1..][i] == segments[i + 1];
    }
  }
}
