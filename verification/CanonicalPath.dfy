/**
 * Percent-encoding checker and normaliser of src/routes.rs:377-471, after sections 2.1, 2.3,
 * 6.2.2.1 and 6.2.2.2 of RFC 3986. Both are byte loops; both are specified by the tokens a
 * path is made of: literal bytes and encoded bytes.
 */
module CanonicalPath {
  import opened Basics

  const PERCENT: Byte := 0x25
  const SLASH: Byte := 0x2f
  const DOT: Byte := 0x2e
  const QUESTION: Byte := 0x3f
  const HASH: Byte := 0x23
  const BACKSLASH: Byte := 0x5c

  /*** Tokens ***/

  /** One literal byte, or one byte written as `%XX`. */
  datatype Token = Lit(b: Byte) | Esc(b: Byte)

  predicate IsUnreserved(b: Byte) {
    || 0x30 <= b <= 0x39 || 0x41 <= b <= 0x5a || 0x61 <= b <= 0x7a
    || b == 0x2d || b == DOT || b == 0x5f || b == 0x7e
  }

  /** `hex_value`. */
  function HexValue(b: Byte): (r: Option<nat>)
    ensures r.Some? ==> r.value < 16
  {
    if 0x30 <= b <= 0x39 then Some(b - 0x30)
    else if 0x61 <= b <= 0x66 then Some(b - 0x61 + 10)
    else if 0x41 <= b <= 0x46 then Some(b - 0x41 + 10)
    else None
  }

  /** `char::from_digit` followed by `to_ascii_uppercase`. */
  function HexDigit(n: nat): (r: Byte)
    requires n < 16
    ensures HexValue(r) == Some(n) && !(0x61 <= r <= 0x66)
  {
    if n < 10 then 0x30 + n else 0x41 + (n - 10)
  }

  /** The bytes of a token in the output: `char::from` widens a byte above 127 to two. */
  function Emit(t: Token): (r: Bytes)
    ensures 1 <= |r| <= 3
  {
    match t
    case Lit(b) => if b < 128 then [b] else [0xc0 + b / 64, 0x80 + b % 64]
    case Esc(b) => [PERCENT, HexDigit(b / 16), HexDigit(b % 16)]
  }

  function EmitAll(ts: seq<Token>): Bytes {
    if ts == [] then [] else Emit(ts[0]) + EmitAll(ts[1..])
  }

  /** An encoded unreserved byte is the byte itself; everything else stays as it is. */
  function Normal(t: Token): Token {
    if t.Esc? && IsUnreserved(t.b) then Lit(t.b) else t
  }

  function NormalAll(ts: seq<Token>): (r: seq<Token>)
    ensures |r| == |ts|
    ensures forall i :: 0 <= i < |ts| ==> r[i] == Normal(ts[i])
  {
    if ts == [] then [] else [Normal(ts[0])] + NormalAll(ts[1..])
  }

  /** The bytes a path stands for. */
  function Decoded(ts: seq<Token>): Bytes {
    seq(|ts|, i requires 0 <= i < |ts| => ts[i].b)
  }

  /** The first token of a byte string with the number of bytes it takes; none at a malformed escape. */
  function First(p: Bytes): (r: Option<(Token, nat)>)
    requires p != []
    ensures r.Some? ==> 1 <= r.value.1 <= |p|
  {
    if p[0] != PERCENT then Some((Lit(p[0]), 1))
    else if |p| < 3 then None
    else
      var high, low := HexValue(p[1]), HexValue(p[2]);
      if high.None? || low.None? then None
      else Some((Esc(high.value * 16 + low.value), 3))
  }

  function Prepend(t: Token, rest: Option<seq<Token>>): Option<seq<Token>> {
    if rest.None? then None else Some([t] + rest.value)
  }

  /** The tokens of a byte string, either case of hexadecimal digits accepted. */
  function Tokens(p: Bytes): Option<seq<Token>>
    decreases |p|
  {
    if p == [] then Some([])
    else
      var first := First(p);
      if first.None? then None else Prepend(first.value.0, Tokens(p[first.value.1..]))
  }

  /*** Properties of tokens ***/

  lemma {:induction false} EmitAppend(a: seq<Token>, b: seq<Token>)
    ensures EmitAll(a + b) == EmitAll(a) + EmitAll(b)
  {
    if a == [] {
      assert a + b == b;
    } else {
      assert (a + b)[1..] == a[1..] + b;
      EmitAppend(a[1..], b);
    }
  }

  lemma {:induction false} TokensAppend(a: Bytes, b: Bytes)
    requires Tokens(a).Some?
    ensures Tokens(a + b) == if Tokens(b).None? then None else Some(Tokens(a).value + Tokens(b).value)
    decreases |a|
  {
    if a == [] {
      assert a + b == b;
      assert Tokens(b).Some? ==> [] + Tokens(b).value == Tokens(b).value;
    } else {
      var n := First(a).value.1;
      assert First(a + b) == First(a);
      assert (a + b)[n..] == a[n..] + b;
      TokensAppend(a[n..], b);
      if Tokens(b).Some? {
        var t := First(a).value.0;
        assert [t] + (Tokens(a[n..]).value + Tokens(b).value) == [t] + Tokens(a[n..]).value + Tokens(b).value;
      }
    }
  }

  predicate Plain(t: Token) {
    t.Lit? ==> t.b < 128 && t.b != PERCENT
  }

  /** What is emitted for plain tokens reads back as those tokens. */
  lemma {:induction false} EmitReadsBack(ts: seq<Token>)
    requires forall i :: 0 <= i < |ts| ==> Plain(ts[i])
    ensures Tokens(EmitAll(ts)) == Some(ts)
  {
    if ts != [] {
      var t := ts[0];
      var e := EmitAll(ts);
      assert Plain(t);
      EmitReadsBack(ts[1..]);
      assert e == Emit(t) + EmitAll(ts[1..]);
      assert First(e) == Some((t, |Emit(t)|));
      assert e[|Emit(t)|..] == EmitAll(ts[1..]);
      assert ts == [t] + ts[1..];
    }
  }

  /** Emission loses nothing: plain token strings with the same text are the same. */
  lemma EmitInjective(a: seq<Token>, b: seq<Token>)
    requires forall i :: 0 <= i < |a| ==> Plain(a[i])
    requires forall i :: 0 <= i < |b| ==> Plain(b[i])
    requires EmitAll(a) == EmitAll(b)
    ensures a == b
  {
    EmitReadsBack(a);
    EmitReadsBack(b);
  }

  /*** The checker ***/

  predicate IsDelimiter(b: Byte) {
    b == QUESTION || b == HASH || b == BACKSLASH || b == SLASH
  }

  /** A token a canonical segment may hold: a printable literal, or an encoding that is needed and is no separator. */
  predicate TokenOk(t: Token) {
    match t
    case Lit(b) => 0x21 <= b <= 0x7e && b != PERCENT && !IsDelimiter(b)
    case Esc(b) => !IsUnreserved(b) && !IsDelimiter(b)
  }

  ghost predicate TokensOk(ts: seq<Token>) {
    forall i :: 0 <= i < |ts| ==> TokenOk(ts[i])
  }

  /** A non-empty segment, no dot segment, whose text is the upper-case rendering of permitted tokens. */
  ghost predicate SegmentOk(s: Bytes) {
    && s != [] && s != [DOT] && s != [DOT, DOT]
    && exists ts :: EmitAll(ts) == s && TokensOk(ts)
  }

  /** `str::is_ascii`. */
  predicate IsAscii(s: Bytes) {
    forall i :: 0 <= i < |s| ==> s[i] < 128
  }

  lemma {:induction false} OkIsAscii(ts: seq<Token>)
    requires TokensOk(ts)
    ensures IsAscii(EmitAll(ts))
  {
    if ts != [] {
      assert TokenOk(ts[0]);
      OkIsAscii(ts[1..]);
    }
  }

  lemma OkReadsBack(ts: seq<Token>)
    requires TokensOk(ts)
    ensures Tokens(EmitAll(ts)) == Some(ts)
  {
    forall i | 0 <= i < |ts| ensures Plain(ts[i]) {
      assert TokenOk(ts[i]);
    }
    EmitReadsBack(ts);
  }

  /** The rest of a permitted rendering starts with a permitted token. */
  lemma OkHead(done: seq<Token>, ts: seq<Token>, s: Bytes, index: nat)
    requires TokensOk(done) && TokensOk(ts) && EmitAll(ts) == s && index < |s| && EmitAll(done) == s[..index]
    ensures
      var rest := s[index..];
      && First(rest).Some? && TokenOk(First(rest).value.0)
      && rest[..First(rest).value.1] == Emit(First(rest).value.0)
      && First(rest).value.1 == |Emit(First(rest).value.0)|
  {
    OkReadsBack(done);
    OkReadsBack(ts);
    assert s == s[..index] + s[index..];
    TokensAppend(s[..index], s[index..]);
    var rest := Tokens(s[index..]).value;
    assert ts == done + rest;
    EmitAppend(done, rest);
    assert EmitAll(rest) == s[index..];
    RenderedHead(rest, ts, |done|, s[index..]);
  }

  /** A rendering starts with the text of its first token. */
  lemma RenderedHead(rest: seq<Token>, ts: seq<Token>, n: nat, text: Bytes)
    requires TokensOk(ts) && n <= |ts| && rest == ts[n..] && EmitAll(rest) == text && text != []
    ensures
      && First(text).Some? && TokenOk(First(text).value.0)
      && text[..First(text).value.1] == Emit(First(text).value.0)
      && First(text).value.1 == |Emit(First(text).value.0)|
  {
    var t := rest[0];
    assert t == ts[n] && TokenOk(t);
    assert text == Emit(t) + EmitAll(rest[1..]);
    assert text[..|Emit(t)|] == Emit(t);
    EmitIsFirst(t, EmitAll(rest[1..]));
  }

  /** A permitted token is read off the front of any text it is written before. */
  lemma EmitIsFirst(t: Token, tail: Bytes)
    requires TokenOk(t)
    ensures First(Emit(t) + tail) == Some((t, |Emit(t)|))
  {
    if t.Esc? {
      assert t.b == (t.b / 16) * 16 + t.b % 16;
    }
  }

  /** `rest` starts with the canonical text of a permitted token. */
  predicate HeadOk(rest: Bytes) {
    && rest != [] && First(rest).Some? && TokenOk(First(rest).value.0)
    && rest[..First(rest).value.1] == Emit(First(rest).value.0)
  }

  lemma SegmentHead(done: seq<Token>, s: Bytes, index: nat)
    requires TokensOk(done) && index < |s| && EmitAll(done) == s[..index] && SegmentOk(s)
    ensures HeadOk(s[index..])
  {
    var ts :| EmitAll(ts) == s && TokensOk(ts);
    OkHead(done, ts, s, index);
  }

  lemma ExtendDone(done: seq<Token>, s: Bytes, index: nat, t: Token)
    requires TokensOk(done) && index <= |s| && EmitAll(done) == s[..index] && TokenOk(t)
    requires index + |Emit(t)| <= |s| && s[index..index + |Emit(t)|] == Emit(t)
    ensures TokensOk(done + [t]) && EmitAll(done + [t]) == s[..index + |Emit(t)|]
  {
    EmitAppend(done, [t]);
    assert EmitAll([t]) == Emit(t);
    assert s[..index + |Emit(t)|] == s[..index] + s[index..index + |Emit(t)|];
  }

  lemma NotAscii(s: Bytes)
    requires !IsAscii(s)
    ensures !SegmentOk(s)
  {
    forall ts | TokensOk(ts) ensures EmitAll(ts) != s {
      OkIsAscii(ts);
    }
  }

  /** Upper-case digits are rendered as they were written. */
  lemma UpperEscape(first: Byte, second: Byte)
    requires HexValue(first).Some? && HexValue(second).Some?
    requires !(0x61 <= first <= 0x66) && !(0x61 <= second <= 0x66)
    ensures Emit(Esc(HexValue(first).value * 16 + HexValue(second).value)) == [PERCENT, first, second]
  {
  }

  /** One turn of the loop of `canonical_segment`: the token at `index`, or a rejection. */
  method CheckToken(s: Bytes, index: nat) returns (t: Option<Token>)
    requires index < |s|
    ensures t.Some? == HeadOk(s[index..])
    ensures t.Some? ==>
      TokenOk(t.value) && index + |Emit(t.value)| <= |s| && s[index..index + |Emit(t.value)|] == Emit(t.value)
  {
    var byte := s[index];
    assert s[index..][0] == byte;
    if !(0x21 <= byte <= 0x7e) || IsDelimiter(byte) {
      return None;
    }
    if byte != PERCENT {
      return Some(Lit(byte));
    }
    if index + 2 >= |s| {
      return None;
    }
    var first, second := s[index + 1], s[index + 2];
    assert s[index..][1] == first && s[index..][2] == second;
    var high, low := HexValue(first), HexValue(second);
    if high.None? || low.None? {
      return None;
    }
    if 0x61 <= first <= 0x66 || 0x61 <= second <= 0x66 {
      return None;
    }
    var decoded := high.value * 16 + low.value;
    if IsUnreserved(decoded) || IsDelimiter(decoded) {
      return None;
    }
    UpperEscape(first, second);
    assert s[index..index + 3] == [byte, first, second];
    return Some(Esc(decoded));
  }

  /** `canonical_segment` (src/routes.rs:397-436). */
  method CanonicalSegment(s: Bytes) returns (ok: bool)
    ensures ok == SegmentOk(s)
  {
    if s == [] || s == [DOT] || s == [DOT, DOT] {
      return false;
    }
    if !IsAscii(s) {
      NotAscii(s);
      return false;
    }
    var index := 0;
    ghost var done: seq<Token> := [];
    while index < |s|
      invariant index <= |s|
      invariant TokensOk(done) && EmitAll(done) == s[..index]
    {
      var t := CheckToken(s, index);
      if t.None? {
        if SegmentOk(s) {
          SegmentHead(done, s, index);
        }
        return false;
      }
      ExtendDone(done, s, index, t.value);
      done := done + [t.value];
      index := index + |Emit(t.value)|;
    }
    assert s[..index] == s;
    return true;
  }

  /*** Segments ***/

  /** `str::split('/')`: at least one segment, possibly empty ones. */
  function Split(p: Bytes): (r: seq<Bytes>)
    ensures |r| >= 1
  {
    if p == [] then [[]]
    else
      var rest := Split(p[1..]);
      if p[0] == SLASH then [[]] + rest else [[p[0]] + rest[0]] + rest[1..]
  }

  /** Not empty, no empty segment but the last, every other segment canonical. */
  ghost predicate PathOk(p: Bytes) {
    p != [] && SegmentsOk(Split(p))
  }

  ghost predicate SegmentsOk(segments: seq<Bytes>)
    requires |segments| >= 1
  {
    && segments[0] != []
    && (forall i :: 0 <= i < |segments| - 1 ==> SegmentOk(segments[i]))
    && (segments[|segments| - 1] == [] || SegmentOk(segments[|segments| - 1]))
  }

  predicate HasDoubleSlash(p: Bytes) {
    exists i :: 0 <= i < |p| - 1 && p[i] == SLASH && p[i + 1] == SLASH
  }

  predicate HasForbidden(p: Bytes) {
    exists i :: 0 <= i < |p| && (p[i] == QUESTION || p[i] == HASH || p[i] == BACKSLASH)
  }

  lemma {:induction false} OkHoldsNoDelimiter(ts: seq<Token>, b: Byte)
    requires TokensOk(ts) && IsDelimiter(b)
    ensures b !in EmitAll(ts)
  {
    if ts != [] {
      assert TokenOk(ts[0]);
      OkHoldsNoDelimiter(ts[1..], b);
    }
  }

  lemma SegmentHoldsNoDelimiter(s: Bytes, b: Byte)
    requires SegmentOk(s) && IsDelimiter(b)
    ensures b !in s
  {
    var ts :| EmitAll(ts) == s && TokensOk(ts);
    OkHoldsNoDelimiter(ts, b);
  }

  /** Every byte but the slashes is in some segment. */
  lemma {:induction false} SplitCovers(p: Bytes, b: Byte)
    requires b in p && b != SLASH
    ensures exists i :: 0 <= i < |Split(p)| && b in Split(p)[i]
  {
    var rest := Split(p[1..]);
    if p[0] == b {
      assert b in Split(p)[0];
    } else {
      SplitCovers(p[1..], b);
      var i :| 0 <= i < |rest| && b in rest[i];
      if p[0] == SLASH {
        assert Split(p)[i + 1] == rest[i];
      } else if i == 0 {
        assert b in Split(p)[0];
      } else {
        assert Split(p)[i] == rest[i];
      }
    }
  }

  /** Two slashes in a row make an empty segment that is not the last. */
  lemma {:induction false} DoubleSlashSplits(p: Bytes, k: nat)
    requires k + 1 < |p| && p[k] == SLASH && p[k + 1] == SLASH
    ensures exists i :: 0 < i < |Split(p)| - 1 && Split(p)[i] == []
  {
    var rest := Split(p[1..]);
    if k == 0 {
      assert p[1..][0] == SLASH;
      assert rest[0] == [];
      assert Split(p)[0] == [] && Split(p)[1] == [];
      assert |rest| >= 2;
    } else {
      DoubleSlashSplits(p[1..], k - 1);
      var i :| 0 < i < |rest| - 1 && rest[i] == [];
      if p[0] == SLASH {
        assert Split(p)[i + 1] == [];
      } else {
        assert Split(p)[i] == [];
      }
    }
  }

  lemma LeadingSlashSplits(p: Bytes)
    requires p != []
    ensures Split(p)[0] == [] <==> p[0] == SLASH
  {
  }

  /** The up-front rejections of `canonical_path` reject nothing the segments would let through. */
  lemma EarlyRejectsAgree(p: Bytes)
    requires p != [] && (p[0] == SLASH || HasDoubleSlash(p) || HasForbidden(p))
    ensures !PathOk(p)
  {
    var segments := Split(p);
    if p[0] == SLASH {
      LeadingSlashSplits(p);
    } else if HasDoubleSlash(p) {
      var k :| 0 <= k < |p| - 1 && p[k] == SLASH && p[k + 1] == SLASH;
      DoubleSlashSplits(p, k);
    } else {
      var k :| 0 <= k < |p| && (p[k] == QUESTION || p[k] == HASH || p[k] == BACKSLASH);
      SplitCovers(p, p[k]);
      var i :| 0 <= i < |segments| && p[k] in segments[i];
      if SegmentOk(segments[i]) {
        SegmentHoldsNoDelimiter(segments[i], p[k]);
      }
    }
  }

  /** `canonical_path` (src/routes.rs:377-395). */
  method CanonicalPath(p: Bytes) returns (ok: bool)
    ensures ok == PathOk(p)
  {
    if p == [] {
      return false;
    }
    if p[0] == SLASH || HasDoubleSlash(p) || HasForbidden(p) {
      EarlyRejectsAgree(p);
      return false;
    }
    LeadingSlashSplits(p);
    var segments := Split(p);
    var i := 0;
    while i < |segments|
      invariant i <= |segments|
      invariant forall j :: 0 <= j < i ==> SegmentOk(segments[j])
    {
      if segments[i] == [] {
        return i + 1 == |segments|;
      }
      var segmentOk := CanonicalSegment(segments[i]);
      if !segmentOk {
        return false;
      }
      i := i + 1;
    }
    return true;
  }

  /*** The normaliser ***/

  /** What `canonical_rewrite_path` makes of the bytes after the leading slash, before it checks them. */
  function Normalised(p: Bytes): Option<Bytes> {
    if Tokens(p).None? then None else Some(EmitAll(NormalAll(Tokens(p).value)))
  }

  /** `canonical_rewrite_path`, as a function of the whole path. */
  ghost function RewritePath(path: Bytes): Option<Bytes> {
    if path == [] || path[0] != SLASH then None
    else
      var out := Normalised(path[1..]);
      if out.Some? && PathOk(out.value) then out else None
  }

  lemma NormalAppend(a: seq<Token>, b: seq<Token>)
    ensures NormalAll(a + b) == NormalAll(a) + NormalAll(b)
  {
  }

  /** The token under the cursor: a literal byte, or a well-formed escape. */
  method ReadToken(bytes: Bytes, index: nat) returns (r: Option<(Token, nat)>)
    requires index < |bytes|
    ensures r == First(bytes[index..])
  {
    ghost var rest := bytes[index..];
    assert rest[0] == bytes[index];
    if bytes[index] != PERCENT {
      return Some((Lit(bytes[index]), 1));
    }
    if index + 2 >= |bytes| {
      return None;
    }
    assert rest[1] == bytes[index + 1] && rest[2] == bytes[index + 2];
    var high, low := HexValue(bytes[index + 1]), HexValue(bytes[index + 2]);
    if high.None? || low.None? {
      return None;
    }
    return Some((Esc(high.value * 16 + low.value), 3));
  }

  /** The output pushes of one turn of the loop. */
  method Push(output: Bytes, t: Token) returns (r: Bytes)
    ensures r == output + Emit(Normal(t))
  {
    match t
    case Lit(b) => r := output + Emit(Lit(b));
    case Esc(b) =>
      if IsUnreserved(b) {
        r := output + [b];
      } else {
        r := output + [PERCENT, HexDigit(b / 16), HexDigit(b % 16)];
      }
  }

  lemma FirstIsToken(p: Bytes)
    requires p != [] && First(p).Some?
    ensures Tokens(p[..First(p).value.1]) == Some([First(p).value.0])
  {
    var head := p[..First(p).value.1];
    assert First(head) == First(p);
    assert head[First(p).value.1..] == [];
    assert [First(p).value.0] + [] == [First(p).value.0];
    assert Tokens(head) == Prepend(First(p).value.0, Some([]));
  }

  lemma TurnReads(bytes: Bytes, index: nat, done: seq<Token>, t: Token, n: nat)
    requires index < |bytes| && Tokens(bytes[..index]) == Some(done) && First(bytes[index..]) == Some((t, n))
    ensures Tokens(bytes[..index + n]) == Some(done + [t])
    ensures EmitAll(NormalAll(done + [t])) == EmitAll(NormalAll(done)) + Emit(Normal(t))
  {
    var rest := bytes[index..];
    FirstIsToken(rest);
    assert bytes[..index + n] == bytes[..index] + rest[..n];
    TokensAppend(bytes[..index], rest[..n]);
    NormalAppend(done, [t]);
    EmitAppend(NormalAll(done), [Normal(t)]);
    assert NormalAll([t]) == [Normal(t)];
    assert EmitAll([Normal(t)]) == Emit(Normal(t));
  }

  lemma MalformedIsNone(bytes: Bytes, index: nat)
    requires index < |bytes| && Tokens(bytes[..index]).Some? && First(bytes[index..]).None?
    ensures Tokens(bytes).None?
  {
    assert bytes == bytes[..index] + bytes[index..];
    TokensAppend(bytes[..index], bytes[index..]);
  }

  /** `canonical_rewrite_path` (src/routes.rs:438-462). */
  method CanonicalRewritePath(path: Bytes) returns (r: Option<Bytes>)
    ensures r == RewritePath(path)
  {
    if path == [] || path[0] != SLASH {
      return None;
    }
    var bytes := path[1..];
    var output: Bytes := [];
    var index := 0;
    ghost var done: seq<Token> := [];
    while index < |bytes|
      invariant index <= |bytes|
      invariant Tokens(bytes[..index]) == Some(done) && output == EmitAll(NormalAll(done))
    {
      var next := ReadToken(bytes, index);
      if next.None? {
        MalformedIsNone(bytes, index);
        return None;
      }
      TurnReads(bytes, index, done, next.value.0, next.value.1);
      output := Push(output, next.value.0);
      done := done + [next.value.0];
      index := index + next.value.1;
    }
    assert bytes[..index] == bytes;
    var ok := CanonicalPath(output);
    return if ok then Some(output) else None;
  }

  /*** Checker and normaliser agree ***/

  /** A permitted token is its own normal form. */
  lemma {:induction false} OkIsNormal(ts: seq<Token>)
    requires TokensOk(ts)
    ensures NormalAll(ts) == ts
  {
  }

  /** Bytes the normaliser leaves alone, ASCII throughout. */
  ghost predicate Fixed(p: Bytes) {
    exists ts :: Tokens(p) == Some(ts) && NormalAll(ts) == ts && EmitAll(ts) == p
  }

  lemma SegmentIsFixed(s: Bytes)
    requires SegmentOk(s)
    ensures Fixed(s)
  {
    var ts :| EmitAll(ts) == s && TokensOk(ts);
    OkReadsBack(ts);
    OkIsNormal(ts);
  }

  lemma FixedAppend(a: Bytes, b: Bytes)
    requires Fixed(a) && Fixed(b)
    ensures Fixed(a + b)
  {
    var ta :| Tokens(a) == Some(ta) && NormalAll(ta) == ta && EmitAll(ta) == a;
    var tb :| Tokens(b) == Some(tb) && NormalAll(tb) == tb && EmitAll(tb) == b;
    TokensAppend(a, b);
    NormalAppend(ta, tb);
    EmitAppend(ta, tb);
  }

  lemma EmptyIsFixed()
    ensures Fixed([])
  {
    assert Tokens([]) == Some([]) && NormalAll([]) == [] && EmitAll([]) == [];
  }

  lemma SlashIsFixed()
    ensures Fixed([SLASH])
  {
    var ts := [Lit(SLASH)];
    FirstIsToken([SLASH]);
    assert [SLASH][..1] == [SLASH];
    assert NormalAll(ts) == ts;
    assert EmitAll(ts) == [SLASH];
  }

  /** The first segment, and what follows its slash. */
  lemma {:induction false} SplitHead(p: Bytes)
    ensures
      var s := Split(p);
      && |s[0]| <= |p| && p[..|s[0]|] == s[0]
      && (|s| == 1 ==> p == s[0])
      && (|s| > 1 ==> |s[0]| < |p| && p[|s[0]|] == SLASH && Split(p[|s[0]| + 1..]) == s[1..])
  {
    if p != [] {
      if p[0] == SLASH {
        assert p[0 + 1..] == p[1..];
      } else {
        SplitHead(p[1..]);
        HeadGrows(p, Split(p[1..]));
      }
    }
  }

  lemma HeadGrows(p: Bytes, rest: seq<Bytes>)
    requires p != [] && |rest| > 0 && |rest[0]| <= |p| - 1 && p[1..][..|rest[0]|] == rest[0]
    ensures
      var head := [p[0]] + rest[0];
      && p[..|head|] == head
      && (p[1..] == rest[0] ==> p == head)
      && (|head| < |p| ==> p[|head|] == p[1..][|rest[0]|] && p[|head| + 1..] == p[1..][|rest[0]| + 1..])
  {
  }

  ghost predicate EachFixed(segments: seq<Bytes>) {
    forall i :: 0 <= i < |segments| ==> Fixed(segments[i])
  }

  lemma FixedJoin(head: Bytes, tail: Bytes)
    requires Fixed(head) && Fixed(tail)
    ensures Fixed(head + [SLASH] + tail)
  {
    SlashIsFixed();
    FixedAppend(head, [SLASH]);
    FixedAppend(head + [SLASH], tail);
  }

  lemma {:induction false} SegmentsFixed(p: Bytes, segments: seq<Bytes>)
    requires segments == Split(p) && EachFixed(segments)
    ensures Fixed(p)
    decreases |segments|
  {
    SplitHead(p);
    assert Fixed(segments[0]);
    if |segments| > 1 {
      var tail := p[|segments[0]| + 1..];
      assert p == segments[0] + [SLASH] + tail;
      SegmentsFixed(tail, segments[1..]);
      FixedJoin(segments[0], tail);
    }
  }

  lemma CanonicalIsFixed(p: Bytes)
    requires PathOk(p)
    ensures Fixed(p)
  {
    var s := Split(p);
    forall i | 0 <= i < |s| ensures Fixed(s[i]) {
      if SegmentOk(s[i]) {
        SegmentIsFixed(s[i]);
      } else {
        EmptyIsFixed();
      }
    }
    SegmentsFixed(p, s);
  }

  /** The checker accepts exactly the paths the normaliser returns unchanged. */
  lemma CheckerAgreesWithNormaliser(p: Bytes)
    ensures PathOk(p) <==> RewritePath([SLASH] + p) == Some(p)
  {
    assert ([SLASH] + p)[1..] == p;
    if PathOk(p) {
      CanonicalIsFixed(p);
    }
  }

  lemma Idempotent(path: Bytes)
    requires RewritePath(path).Some?
    ensures RewritePath([SLASH] + RewritePath(path).value) == RewritePath(path)
  {
    CheckerAgreesWithNormaliser(RewritePath(path).value);
  }

  /*** What normalising keeps ***/

  /** The number of bytes of a token in the input. */
  function Width(t: Token): nat {
    if t.Lit? then 1 else 3
  }

  function WidthAll(ts: seq<Token>): nat {
    if ts == [] then 0 else Width(ts[0]) + WidthAll(ts[1..])
  }

  lemma {:induction false} TokensWidth(p: Bytes)
    requires Tokens(p).Some?
    ensures WidthAll(Tokens(p).value) == |p|
    ensures IsAscii(p) ==> forall i :: 0 <= i < |Tokens(p).value| ==> Tokens(p).value[i].Lit? ==> Tokens(p).value[i].b < 128
    ensures forall i :: 0 <= i < |Tokens(p).value| ==> Tokens(p).value[i].Lit? ==> Tokens(p).value[i].b in p && Tokens(p).value[i].b != PERCENT
    decreases |p|
  {
    if p != [] {
      TokensWidth(p[First(p).value.1..]);
    }
  }

  lemma {:induction false} NormalNoLonger(ts: seq<Token>)
    requires forall i :: 0 <= i < |ts| ==> ts[i].Lit? ==> ts[i].b < 128
    ensures |EmitAll(NormalAll(ts))| <= WidthAll(ts)
  {
    if ts != [] {
      NormalNoLonger(ts[1..]);
      assert NormalAll(ts)[1..] == NormalAll(ts[1..]);
    }
  }

  /** Two-byte renderings of high bytes are rejected, so the accepted output is ASCII and reads back. */
  lemma AcceptedReadsBack(p: Bytes)
    requires RewritePath([SLASH] + p).Some?
    ensures
      var q := RewritePath([SLASH] + p).value;
      Tokens(p).Some? && Tokens(q) == Some(NormalAll(Tokens(p).value))
  {
    assert ([SLASH] + p)[1..] == p;
    var ts := Tokens(p).value;
    var q := RewritePath([SLASH] + p).value;
    PathIsAscii(q);
    TokensWidth(p);
    AsciiEmission(NormalAll(ts));
    forall i | 0 <= i < |ts| ensures Plain(NormalAll(ts)[i]) {
      assert NormalAll(ts)[i] == Normal(ts[i]);
    }
    EmitReadsBack(NormalAll(ts));
  }

  lemma PathIsAscii(q: Bytes)
    requires PathOk(q)
    ensures IsAscii(q)
  {
    forall i | 0 <= i < |q| ensures q[i] < 128 {
      if q[i] != SLASH {
        SplitCovers(q, q[i]);
        var j :| 0 <= j < |Split(q)| && q[i] in Split(q)[j];
        assert SegmentOk(Split(q)[j]);
        var ts :| EmitAll(ts) == Split(q)[j] && TokensOk(ts);
        OkIsAscii(ts);
      }
    }
  }

  lemma {:induction false} AsciiEmission(ts: seq<Token>)
    requires IsAscii(EmitAll(ts))
    ensures forall i :: 0 <= i < |ts| ==> ts[i].Lit? ==> ts[i].b < 128
  {
    if ts != [] {
      var e := EmitAll(ts);
      assert e[0] == Emit(ts[0])[0];
      assert forall j :: 0 <= j < |EmitAll(ts[1..])| ==> EmitAll(ts[1..])[j] == e[|Emit(ts[0])| + j];
      AsciiEmission(ts[1..]);
    }
  }

  /** Normalising never lengthens a path it accepts. */
  lemma NeverLonger(path: Bytes)
    requires RewritePath(path).Some?
    ensures |RewritePath(path).value| < |path|
  {
    var ts := Tokens(path[1..]).value;
    PathIsAscii(RewritePath(path).value);
    AsciiEmission(NormalAll(ts));
    TokensWidth(path[1..]);
    forall i | 0 <= i < |ts| ensures ts[i].Lit? ==> ts[i].b < 128 {
      assert NormalAll(ts)[i] == Normal(ts[i]);
    }
    NormalNoLonger(ts);
  }

  /**
   * The output stands for the same bytes, encodes exactly what was encoded and is not
   * unreserved, and holds no encoded separator and no dot segment.
   */
  lemma MeaningKept(p: Bytes)
    requires RewritePath([SLASH] + p).Some?
    ensures
      var q := RewritePath([SLASH] + p).value;
      && Tokens(p).Some? && Tokens(q).Some?
      && var ts, us := Tokens(p).value, Tokens(q).value;
         && Decoded(us) == Decoded(ts)
         && (forall i :: 0 <= i < |ts| ==> us[i].Esc? == (ts[i].Esc? && !IsUnreserved(ts[i].b)))
    ensures
      var q := RewritePath([SLASH] + p).value;
      forall i :: 0 <= i < |Split(q)| ==> Split(q)[i] != [DOT] && Split(q)[i] != [DOT, DOT]
  {
    AcceptedReadsBack(p);
    NormalKeepsBytes(Tokens(p).value);
    NoDotSegment([SLASH] + p);
  }

  lemma NormalKeepsBytes(ts: seq<Token>)
    ensures Decoded(NormalAll(ts)) == Decoded(ts)
    ensures forall i :: 0 <= i < |ts| ==> NormalAll(ts)[i].Esc? == (ts[i].Esc? && !IsUnreserved(ts[i].b))
  {
  }

  lemma NoDotSegment(path: Bytes)
    requires RewritePath(path).Some?
    ensures
      var q := RewritePath(path).value;
      forall i :: 0 <= i < |Split(q)| ==> Split(q)[i] != [DOT] && Split(q)[i] != [DOT, DOT]
  {
  }

  /** Two accepted paths get the same text exactly when they differ only in needless encoding and hex case. */
  lemma NormalFormIsUnique(p: Bytes, q: Bytes)
    requires RewritePath([SLASH] + p).Some? && RewritePath([SLASH] + q).Some?
    ensures Tokens(p).Some? && Tokens(q).Some?
    ensures RewritePath([SLASH] + p) == RewritePath([SLASH] + q)
       <==> NormalAll(Tokens(p).value) == NormalAll(Tokens(q).value)
  {
    AcceptedReadsBack(p);
    AcceptedReadsBack(q);
    assert ([SLASH] + p)[1..] == p && ([SLASH] + q)[1..] == q;
  }

  lemma {:induction false} EscapesInSegments(q: Bytes, b: Byte)
    requires Tokens(q).Some? && Esc(b) in Tokens(q).value && SlashFreeTokens(q)
    ensures exists i :: 0 <= i < |Split(q)| && Tokens(Split(q)[i]).Some? && Esc(b) in Tokens(Split(q)[i]).value
    decreases |q|
  {
    var s := Split(q);
    SplitHead(q);
    assert EachTokenises(s);
    if |s| > 1 {
      var tail := q[|s[0]| + 1..];
      assert q == s[0] + ([SLASH] + tail);
      TokensAppend(s[0], [SLASH] + tail);
      assert ([SLASH] + tail)[1..] == tail;
      if Esc(b) !in Tokens(s[0]).value {
        EscapesInSegments(tail, b);
        var i :| 0 <= i < |Split(tail)| && Tokens(Split(tail)[i]).Some? && Esc(b) in Tokens(Split(tail)[i]).value;
        assert s[i + 1] == Split(tail)[i];
      }
    }
  }

  ghost predicate EachTokenises(segments: seq<Bytes>) {
    forall i :: 0 <= i < |segments| ==> Tokens(segments[i]).Some?
  }

  ghost predicate SlashFreeTokens(q: Bytes) {
    EachTokenises(Split(q))
  }

  /** No encoded separator survives in an accepted path. */
  lemma NoEncodedSeparator(p: Bytes, b: Byte)
    requires RewritePath([SLASH] + p).Some? && IsDelimiter(b)
    ensures
      var q := RewritePath([SLASH] + p).value;
      Tokens(q).Some? && Esc(b) !in Tokens(q).value
  {
    AcceptedReadsBack(p);
    var q := RewritePath([SLASH] + p).value;
    var s := Split(q);
    forall i | 0 <= i < |s| ensures Tokens(s[i]).Some? && Esc(b) !in Tokens(s[i]).value {
      if s[i] != [] {
        var ts :| EmitAll(ts) == s[i] && TokensOk(ts);
        OkReadsBack(ts);
        assert !TokenOk(Esc(b));
      }
    }
    if Esc(b) in Tokens(q).value {
      EscapesInSegments(q, b);
    }
  }

  predicate IsQuote(b: Byte) {
    b == 0x22 || b == 0x27
  }

  lemma {:induction false} QuoteIsLiteral(ts: seq<Token>, b: Byte)
    requires IsQuote(b) && b in EmitAll(ts)
    ensures Lit(b) in ts
  {
    if b !in Emit(ts[0]) {
      assert EmitAll(ts) == Emit(ts[0]) + EmitAll(ts[1..]);
      QuoteIsLiteral(ts[1..], b);
    }
  }

  /** Normalising introduces no quote: an encoded quote stays encoded. */
  lemma NoNewQuote(path: Bytes, b: Byte)
    requires RewritePath(path).Some? && IsQuote(b) && b in RewritePath(path).value
    ensures b in path
  {
    var p := path[1..];
    var ts := Tokens(p).value;
    QuoteIsLiteral(NormalAll(ts), b);
    var i :| 0 <= i < |ts| && NormalAll(ts)[i] == Lit(b);
    assert ts[i] == Lit(b);
    TokensWidth(p);
  }
}
