/** Writing, opening and serving packed entries: src/cache.rs:42-61, 177-193, 246-295, 691-762. */
module StoredEntries {
  import opened Basics
  import Decimal
  import opened Headers
  import P = Packed

  /** The kinds of error callers tell apart. */
  datatype Error = InvalidData | UnexpectedEof | Upstream

  /** `serde_json` on metadata. */
  datatype Codec = Codec(encode: Meta -> Bytes, decode: Bytes -> Option<Meta>)

  /** Decoding inverts encoding. */
  ghost predicate Faithful(codec: Codec) {
    forall m :: codec.decode(codec.encode(m)) == Some(m)
  }

  /*** Reading ***/

  /** An open handle: its inode is published, so its bytes no longer change. */
  class OpenFile {
    const bytes: Bytes
    var position: nat

    constructor (bytes: Bytes)
      ensures this.bytes == bytes
    {
      this.bytes := bytes;
      this.position := 0;
    }

    method Seek(to: nat)
      modifies this
      ensures position == to
    {
      position := to;
    }

    /** `read_exact`: exactly `n` bytes or an error. */
    method ReadExact(n: nat) returns (r: Result<Bytes, Error>)
      modifies this
      ensures old(position) + n <= |bytes| ==>
        r == Ok(bytes[old(position)..old(position) + n]) && position == old(position) + n
      ensures old(position) + n > |bytes| ==> r == Err(UnexpectedEof)
    {
      if position + n > |bytes| {
        return Err(UnexpectedEof);
      }
      r := Ok(bytes[position..position + n]);
      position := position + n;
    }

    /** `take(n)` read to its end: at most `n` bytes, fewer at the end of the file. */
    method Take(n: nat) returns (r: Bytes)
      modifies this
      ensures old(position) + n <= |bytes| ==> r == bytes[old(position)..old(position) + n]
    {
      var from := if position <= |bytes| then position else |bytes|;
      var to := if from + n <= |bytes| then from + n else |bytes|;
      r := bytes[from..to];
      position := to;
    }
  }

  /** What the reader makes of the bytes of a file. */
  function Read(file: Bytes, codec: Codec): Result<(Meta, nat), Error> {
    match P.Unpack(file)
    case Err(_) => Err(InvalidData)
    case Ok(entry) =>
      match codec.decode(entry.meta)
      case None => Err(InvalidData)
      case Some(meta) => Ok((meta, |entry.body|))
  }

  /** `read_footer`: neither read can hit the end of the file. */
  method ReadFooter(file: OpenFile, codec: Codec) returns (r: Result<(Meta, nat), Error>)
    modifies file
    ensures r == Read(file.bytes, codec)
  {
    var size := |file.bytes|;
    if size < P.FOOTER_LEN {
      return Err(InvalidData);
    }
    file.Seek(size - P.FOOTER_LEN);
    var footer := file.ReadExact(P.FOOTER_LEN);
    assert file.bytes[size - P.FOOTER_LEN..size] == file.bytes[size - P.FOOTER_LEN..];
    var geometry := P.FooterGeometry(size, footer.value);
    if geometry.Err? {
      return Err(InvalidData);
    }
    var (bodyLen, metaLen) := geometry.value;
    file.Seek(bodyLen);
    var metaBytes := file.ReadExact(metaLen);
    var meta := codec.decode(metaBytes.value);
    return if meta.None? then Err(InvalidData) else Ok((meta.value, bodyLen));
  }

  class StoredEntry {
    const file: OpenFile
    const bodyLen: nat
    const meta: Meta

    ghost predicate Valid(codec: Codec) {
      Read(file.bytes, codec) == Ok((meta, bodyLen))
    }

    constructor (file: OpenFile, bodyLen: nat, meta: Meta)
      ensures this.file == file && this.bodyLen == bodyLen && this.meta == meta
    {
      this.file, this.bodyLen, this.meta := file, bodyLen, meta;
    }

    /** `read_body`, from wherever earlier reads left the handle. */
    method ReadBody(ghost codec: Codec) returns (r: Result<Bytes, Error>)
      requires Valid(codec)
      modifies file
      ensures r == Ok(P.Unpack(file.bytes).value.body)
    {
      file.Seek(0);
      r := file.ReadExact(bodyLen);
    }

    /** `file_response`. */
    method FileResponse(ghost codec: Codec, syntax: Syntax) returns (status: nat, headers: map<string, string>, body: Bytes)
      requires Valid(codec)
      modifies file
      ensures body == P.Unpack(file.bytes).value.body
      ensures status == StatusCode(meta.status)
      ensures forall name :: Applied(headers, name) == Sent(meta.headers, syntax, name)
    {
      file.Seek(0);
      body := file.Take(bodyLen);
      status := StatusCode(meta.status);
      headers := ApplyHeaders(meta.headers, syntax);
    }
  }

  function Applied(headers: map<string, string>, name: string): Option<string> {
    if name in headers then Some(headers[name]) else None
  }

  /** `StatusCode::from_u16(n).unwrap_or(OK)`. */
  function StatusCode(n: nat): nat {
    if 100 <= n <= 999 then n else 200
  }

  /** `load`, given the file found under the key: what cannot be read is a miss. */
  method Load(found: Option<Bytes>, codec: Codec) returns (r: Result<StoredEntry?, Error>)
    ensures r.Ok?
    ensures r.value == null <==> found.None? || Read(found.value, codec).Err?
    ensures r.value != null ==> r.value.file.bytes == found.value && r.value.Valid(codec) && fresh(r.value.file)
  {
    if found.None? {
      return Ok(null);
    }
    var file := new OpenFile(found.value);
    var footer := ReadFooter(file, codec);
    match footer
    case Ok((meta, bodyLen)) =>
      var entry := new StoredEntry(file, bodyLen, meta);
      return Ok(entry);
    case Err(error) =>
      return if error == InvalidData then Ok(null) else Err(error);
  }

  /*** Writing ***/

  /** `serialize_meta`. */
  function SerializeMeta(meta: Meta, codec: Codec): (r: Result<Bytes, Error>)
    ensures r.Ok? ==> |r.value| <= P.MAX_META_LEN
  {
    var bytes := codec.encode(meta);
    if |bytes| > P.MAX_META_LEN then Err(InvalidData) else Ok(bytes)
  }

  /** The file a writer publishes for a body and its metadata. */
  function Written(body: Bytes, meta: Meta, codec: Codec): Result<Bytes, Error> {
    match SerializeMeta(meta, codec)
    case Err(e) => Err(e)
    case Ok(metaBytes) => Ok(P.Pack(body, metaBytes))
  }

  /** The writes of `store_metadata`. */
  method StoreMetadata(body: Bytes, meta: Meta, codec: Codec) returns (r: Result<Bytes, Error>)
    ensures r == Written(body, meta, codec)
  {
    var metaBytes := SerializeMeta(meta, codec);
    if metaBytes.Err? {
      return Err(metaBytes.error);
    }
    var file: Bytes := [];
    file := file + body;
    file := file + metaBytes.value;
    file := file + P.Be32(|metaBytes.value|);
    r := Ok(file);
    assert [] + body == body;
  }

  function Concat(chunks: seq<Bytes>): Bytes {
    if chunks == [] then [] else Concat(chunks[..|chunks| - 1]) + chunks[|chunks| - 1]
  }

  /**
   * The 200 path of `do_artifact_fetch` and the footer of `commit_artifact`: the chunks go to the
   * temp file as they come, and the stored length is counted on the way. `complete` is false when
   * the stream breaks after the given chunks.
   */
  method FetchArtifact(chunks: seq<Bytes>, complete: bool, headers: seq<Header>, codec: Codec) returns (r: Result<Bytes, Error>)
    ensures !complete ==> r == Err(Upstream)
    ensures complete ==>
      var body := Concat(chunks);
      r == Written(body, UpstreamMeta(200, headers, Some(|body|)), codec)
  {
    var file: Bytes := [];
    var contentLength := 0;
    for i := 0 to |chunks|
      invariant file == Concat(chunks[..i]) && contentLength == |file|
    {
      assert chunks[..i + 1][..i] == chunks[..i];
      file := file + chunks[i];
      contentLength := contentLength + |chunks[i]|;
    }
    assert chunks[..|chunks|] == chunks;
    if !complete {
      return Err(Upstream);
    }
    var meta := MetaFromUpstream(200, headers, Some(contentLength));
    var metaBytes := SerializeMeta(meta, codec);
    if metaBytes.Err? {
      return Err(metaBytes.error);
    }
    file := file + metaBytes.value;
    file := file + P.Be32(|metaBytes.value|);
    r := Ok(file);
  }

  /*** Round trips ***/

  /** Every body and metadata a writer accepts is read back exactly. */
  lemma WrittenReadsBack(body: Bytes, meta: Meta, codec: Codec)
    requires Faithful(codec) && Written(body, meta, codec).Ok?
    ensures
      var file := Written(body, meta, codec).value;
      Read(file, codec) == Ok((meta, |body|)) && P.Unpack(file).value.body == body
  {
    P.UnpackInvertsPack(body, codec.encode(meta));
  }

  /** A writer refuses exactly the metadata no reader would accept. */
  lemma RefusedIsUnreadable(body: Bytes, meta: Meta, codec: Codec, file: Bytes, entry: P.Entry)
    requires Written(body, meta, codec).Err? && P.Unpack(file) == Ok(entry)
    ensures entry.meta != codec.encode(meta)
  {
  }

  /**
   * A served artifact has the bytes that were fetched and one content length, which is their
   * number (section 8.6 of RFC 9110). `meta` and `body` are what the reader finds in the file.
   */
  lemma ServedLengthMatches(chunks: seq<Bytes>, hs: seq<Header>, codec: Codec, syntax: Syntax)
    requires Faithful(codec) && LowerNames(hs)
    requires Written(Concat(chunks), UpstreamMeta(200, hs, Some(|Concat(chunks)|)), codec).Ok?
    requires syntax.name(CONTENT_LENGTH) && forall n: nat :: syntax.value(Decimal.Show(n))
    ensures
      var file := Written(Concat(chunks), UpstreamMeta(200, hs, Some(|Concat(chunks)|)), codec).value;
      && Read(file, codec).Ok?
      && var (meta, bodyLen) := Read(file, codec).value;
      var body := P.Unpack(file).value.body;
      && body == Concat(chunks) && bodyLen == |body| && StatusCode(meta.status) == 200
      && Sent(meta.headers, syntax, CONTENT_LENGTH) == Some(Decimal.Show(|body|))
      && SizedBy(meta.headers, |body|)
  {
    var n := |Concat(chunks)|;
    WrittenReadsBack(Concat(chunks), UpstreamMeta(200, hs, Some(n)), codec);
    UpstreamIsSized(200, hs, n);
    SizedIsSent(UpstreamMeta(200, hs, Some(n)).headers, syntax, n);
  }

  function TotalLength(chunks: seq<Bytes>): nat {
    if chunks == [] then 0 else |chunks[0]| + TotalLength(chunks[1..])
  }

  lemma {:induction false} ConcatAppend(a: seq<Bytes>, b: seq<Bytes>)
    ensures Concat(a + b) == Concat(a) + Concat(b)
  {
    if b == [] {
      assert a + b == a;
    } else {
      var n := |b| - 1;
      assert (a + b)[..|a| + n] == a + b[..n];
      ConcatAppend(a, b[..n]);
    }
  }

  lemma {:induction false} ConcatLength(chunks: seq<Bytes>)
    ensures |Concat(chunks)| == TotalLength(chunks)
  {
    if chunks != [] {
      ConcatLength(chunks[1..]);
      ConcatAppend([chunks[0]], chunks[1..]);
      assert [chunks[0]] + chunks[1..] == chunks;
      var one: seq<Bytes> := [chunks[0]];
      assert one[..0] == [];
    }
  }

  lemma ConcatAround(before: seq<Bytes>, chunk: Bytes, rest: seq<Bytes>)
    ensures Concat(before + [chunk] + rest) == Concat(before) + chunk + Concat(rest)
  {
    ConcatAppend(before + [chunk], rest);
    var head := before + [chunk];
    assert head[..|head| - 1] == before;
  }

  lemma SliceBetween(a: Bytes, b: Bytes, c: Bytes)
    ensures (a + b + c)[|a|..|a| + |b|] == b
  {
  }

  /** Each chunk stands in the concatenation behind all the chunks before it. */
  lemma ChunkAtOffset(chunks: seq<Bytes>, i: nat)
    requires i < |chunks|
    ensures
      var at := TotalLength(chunks[..i]);
      && |Concat(chunks)| == TotalLength(chunks)
      && at + |chunks[i]| <= |Concat(chunks)| && Concat(chunks)[at..at + |chunks[i]|] == chunks[i]
  {
    var before, rest := chunks[..i], chunks[i + 1..];
    ConcatLength(chunks);
    ConcatLength(before);
    ConcatAround(before, chunks[i], rest);
    assert chunks == before + [chunks[i]] + rest;
    SliceBetween(Concat(before), chunks[i], Concat(rest));
  }
}
