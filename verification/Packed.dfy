/**
 * The packed entry format of src/cache.rs: body bytes, then the metadata JSON,
 * then its length as four big-endian bytes.
 */
module Packed {
  import opened Basics

  const FOOTER_LEN: nat := 4
  const MAX_META_LEN: nat := 1048576

  datatype Error = InvalidData

  /** `u32::to_be_bytes`. */
  function Be32(n: nat): (r: Bytes)
    requires n < 0x1_0000_0000
    ensures |r| == FOOTER_LEN
  {
    [n / 0x100_0000, n / 0x1_0000 % 0x100, n / 0x100 % 0x100, n % 0x100]
  }

  /** `u32::from_be_bytes`. */
  function FromBe32(f: Bytes): (n: nat)
    requires |f| == FOOTER_LEN
    ensures n < 0x1_0000_0000
  {
    var a: int, b: int, c: int, d: int := f[0], f[1], f[2], f[3];
    ((a * 0x100 + b) * 0x100 + c) * 0x100 + d
  }

  lemma Be32RoundTrip(n: nat)
    requires n < 0x1_0000_0000
    ensures FromBe32(Be32(n)) == n
  {
    var a, b, c := n / 0x100, n / 0x1_0000, n / 0x100_0000;
    NextByte(n, a);
    NextByte(a, b);
    NextByte(b, c);
    assert n / 0x1_0000 == a / 0x100 && n / 0x100_0000 == b / 0x100;
  }

  /** One byte off the end. */
  lemma NextByte(n: nat, high: nat)
    requires high == n / 0x100
    ensures n == high * 0x100 + n % 0x100
  {
  }

  /** What a writer leaves in a file for a body and its encoded metadata. */
  function Pack(body: Bytes, meta: Bytes): (r: Bytes)
    requires |meta| <= MAX_META_LEN
    ensures |r| == |body| + |meta| + FOOTER_LEN
  {
    body + meta + Be32(|meta|)
  }

  datatype Entry = Entry(body: Bytes, meta: Bytes)

  /** `footer_geometry`: body length and metadata length, or a rejection. */
  function FooterGeometry(total: nat, footer: Bytes): (r: Result<(nat, nat), Error>)
    requires FOOTER_LEN <= total && |footer| == FOOTER_LEN
    ensures r.Ok? ==> r.value.0 + r.value.1 + FOOTER_LEN == total && r.value.1 <= MAX_META_LEN
  {
    var metaLen := FromBe32(footer);
    var available := total - FOOTER_LEN;
    if metaLen > MAX_META_LEN then Err(InvalidData)
    else if metaLen > available then Err(InvalidData)
    else Ok((available - metaLen, metaLen))
  }

  /** What a reader gets out of the bytes of one file. */
  function Unpack(file: Bytes): (r: Result<Entry, Error>)
    ensures r.Ok? ==> |r.value.body| + |r.value.meta| + FOOTER_LEN == |file|
  {
    if |file| < FOOTER_LEN then Err(InvalidData)
    else match FooterGeometry(|file|, file[|file| - FOOTER_LEN..])
      case Err(e) => Err(e)
      case Ok((bodyLen, metaLen)) => Ok(Entry(file[..bodyLen], file[bodyLen..bodyLen + metaLen]))
  }

  lemma UnpackInvertsPack(body: Bytes, meta: Bytes)
    requires |meta| <= MAX_META_LEN
    ensures Unpack(Pack(body, meta)) == Ok(Entry(body, meta))
  {
    var file := Pack(body, meta);
    Be32RoundTrip(|meta|);
    assert file[|file| - FOOTER_LEN..] == Be32(|meta|);
    assert file[..|body|] == body;
    assert file[|body|..|body| + |meta|] == meta;
  }

  lemma Be32Inverse(f: Bytes)
    requires |f| == FOOTER_LEN
    ensures Be32(FromBe32(f)) == f
  {
    var a: int, b: int, c: int, d: int := f[0], f[1], f[2], f[3];
    var ab, n := a * 0x100 + b, FromBe32(f);
    var abc := ab * 0x100 + c;
    assert n == abc * 0x100 + d && n / 0x100 == abc && n % 0x100 == d;
    assert abc / 0x100 == ab && abc % 0x100 == c;
    assert ab / 0x100 == a && ab % 0x100 == b;
    assert n / 0x1_0000 == ab && n / 0x100_0000 == a;
    assert f == [f[0], f[1], f[2], f[3]];
  }

  /** The reader accepts exactly what writers write, and nothing else. */
  lemma AcceptsExactlyPacked(file: Bytes, e: Entry)
    ensures Unpack(file) == Ok(e) <==> |e.meta| <= MAX_META_LEN && file == Pack(e.body, e.meta)
  {
    if Unpack(file) == Ok(e) {
      var footer := file[|file| - FOOTER_LEN..];
      Be32Inverse(footer);
      var n := |e.body| + |e.meta|;
      assert file == file[..n] + footer;
      assert file[..n] == file[..|e.body|] + file[|e.body|..n];
    }
    if |e.meta| <= MAX_META_LEN && file == Pack(e.body, e.meta) {
      UnpackInvertsPack(e.body, e.meta);
    }
  }

  /** The most significant byte comes first. */
  lemma BigEndian(n: nat)
    requires n < 0x1_0000_0000
    ensures
      var f := Be32(n);
      n == (f[0] as int) * 0x100_0000 + (f[1] as int) * 0x1_0000 + (f[2] as int) * 0x100 + f[3] as int
  {
    Be32RoundTrip(n);
  }

  /** The body comes first, then the metadata, then its length. */
  lemma PackLayout(body: Bytes, meta: Bytes)
    requires |meta| <= MAX_META_LEN
    ensures
      var file, n := Pack(body, meta), |body|;
      && file[..n] == body && file[n..n + |meta|] == meta && file[n + |meta|..] == Be32(|meta|)
      && |file| == |body| + |meta| + 4
  {
  }
}
