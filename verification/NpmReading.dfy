/** What a JSON reader finds in the text the npm writers write. */
module NpmReading {
  import opened Basics
  import opened NpmJson
  import opened NpmWriter

  type Reader = Bytes -> Option<Json>

  /*** What a reader does ***/

  /** One member: the quoted key, a colon, the text of the value. */
  function MemberText(m: Member, quote: Quote): Bytes {
    quote(m.key) + Ascii(":") + m.value.raw
  }

  /** The members in their order, a comma between two that follow each other. */
  function MembersText(ms: seq<Member>, quote: Quote): Bytes {
    if ms == [] then []
    else if |ms| == 1 then MemberText(ms[0], quote)
    else MemberText(ms[0], quote) + Ascii(",") + MembersText(ms[1..], quote)
  }

  function ObjectText(ms: seq<Member>, quote: Quote): Bytes {
    Ascii("{") + MembersText(ms, quote) + Ascii("}")
  }

  /** A value whose text reads back as the value. */
  ghost predicate ReadsBack(read: Reader, j: Json) {
    read(j.raw) == Some(j)
  }

  /**
   * A quoted string reads as that string, and braces around members read as an object of them,
   * in their order and with their own texts.
   */
  ghost predicate ReadsJson(read: Reader, quote: Quote) {
    && (forall s: string :: ReadsBack(read, Json(quote(s), Text(s))))
    && (forall ms: seq<Member> :: (forall m :: m in ms ==> ReadsBack(read, m.value)) ==>
          ReadsBack(read, Json(ObjectText(ms, quote), Object(ms))))
  }

  /** A parsed document: the text of every value in it reads back as that value. */
  ghost predicate Parsed(read: Reader, j: Json) {
    && ReadsBack(read, j)
    && (j.shape.Object? ==> forall i :: 0 <= i < |j.shape.members| ==> Parsed(read, j.shape.members[i].value))
  }

  /*** What it finds ***/

  function Meaning(d: Doc, quote: Quote): Json
    decreases d
  {
    match d
    case Raw(j) => j
    case Link(url) => Json(quote(url), Text(url))
    case Made(fields) =>
      var ms := Meanings(fields, quote);
      Json(ObjectText(ms, quote), Object(ms))
  }

  function Meanings(fields: seq<Field>, quote: Quote): (ms: seq<Member>)
    ensures |ms| == |fields|
    ensures forall i :: 0 <= i < |fields| ==> ms[i] == Member(fields[i].key, Meaning(fields[i].doc, quote))
    decreases fields
  {
    if fields == [] then []
    else
      var n := |fields| - 1;
      Meanings(fields[..n], quote) + [Member(fields[n].key, Meaning(fields[n].doc, quote))]
  }

  lemma {:induction false} OneMoreMember(ms: seq<Member>, m: Member, quote: Quote)
    requires ms != []
    ensures MembersText(ms + [m], quote) == MembersText(ms, quote) + Ascii(",") + MemberText(m, quote)
  {
    if |ms| == 1 {
      assert (ms + [m])[1..] == [m] && (ms + [m])[0] == ms[0];
    } else {
      assert (ms + [m])[1..] == ms[1..] + [m] && (ms + [m])[0] == ms[0];
      OneMoreMember(ms[1..], m, quote);
      Chained(MemberText(ms[0], quote), Ascii(","), MembersText(ms[1..], quote), MemberText(m, quote));
    }
  }

  lemma Chained(first: Bytes, comma: Bytes, middle: Bytes, last: Bytes)
    ensures first + comma + (middle + comma + last) == (first + comma + middle) + comma + last
  {
  }

  /** The text written for a document is the text of its meaning. */
  lemma {:induction false} MeaningText(d: Doc, quote: Quote)
    ensures Meaning(d, quote).raw == Print(d, quote)
    decreases d
  {
    match d
    case Raw(_) =>
    case Link(_) =>
    case Made(fields) =>
      MeaningsText(fields, quote);
      assert OPEN == Ascii("{") && CLOSE == Ascii("}");
  }

  /** Each field written adds one member, after a comma unless it is the first. */
  lemma {:induction false} MeaningsText(fields: seq<Field>, quote: Quote)
    ensures MembersText(Meanings(fields, quote), quote) == PrintFields(fields, quote)
    decreases fields
  {
    if fields != [] {
      var n := |fields| - 1;
      var init, m := Meanings(fields[..n], quote), Member(fields[n].key, Meaning(fields[n].doc, quote));
      MeaningsText(fields[..n], quote);
      MeaningText(fields[n].doc, quote);
      assert Meanings(fields, quote) == init + [m];
      LeadIs(fields[n].key, n, m.value.raw, quote);
      if n > 0 {
        OneMoreMember(init, m, quote);
        Appended(PrintFields(fields[..n], quote), Ascii(","), MemberText(m, quote));
      }
    }
  }

  lemma Appended(before: Bytes, comma: Bytes, text: Bytes)
    ensures before + (comma + text) == before + comma + text
  {
  }

  lemma LeadIs(key: string, index: nat, raw: Bytes, quote: Quote)
    ensures
      var text := quote(key) + Ascii(":") + raw;
      Lead(key, index, quote) + raw == if index > 0 then Ascii(",") + text else text
  {
    assert COLON == Ascii(":") && COMMA == Ascii(",");
  }

  /** Everything copied verbatim reads back. */
  ghost predicate Grounded(read: Reader, d: Doc) {
    match d
    case Raw(j) => ReadsBack(read, j)
    case Link(_) => true
    case Made(fields) => forall i :: 0 <= i < |fields| ==> Grounded(read, fields[i].doc)
  }

  lemma {:induction false} MeaningReads(read: Reader, d: Doc, quote: Quote)
    requires ReadsJson(read, quote) && Grounded(read, d)
    ensures ReadsBack(read, Meaning(d, quote))
    decreases d
  {
    match d
    case Raw(_) =>
    case Link(_) =>
    case Made(fields) =>
      var ms := Meanings(fields, quote);
      forall m | m in ms ensures ReadsBack(read, m.value) {
        var i :| 0 <= i < |ms| && ms[i] == m;
        MeaningReads(read, fields[i].doc, quote);
      }
  }

  /** Written text reads as its meaning. */
  lemma PrintReads(read: Reader, d: Doc, quote: Quote)
    requires ReadsJson(read, quote) && Grounded(read, d)
    ensures read(Print(d, quote)) == Some(Meaning(d, quote))
  {
    MeaningReads(read, d, quote);
    MeaningText(d, quote);
  }

  /*** Paths ***/

  ghost predicate Distinct(fields: seq<Field>) {
    forall i, j :: 0 <= i < j < |fields| ==> fields[i].key != fields[j].key
  }

  ghost predicate DistinctKeys(d: Doc) {
    match d
    case Raw(_) => true
    case Link(_) => true
    case Made(fields) => Distinct(fields) && forall i :: 0 <= i < |fields| ==> DistinctKeys(fields[i].doc)
  }

  lemma {:induction false} FindAt(fields: seq<Field>, i: nat)
    requires Distinct(fields) && i < |fields|
    ensures Find(fields, fields[i].key) == Some(fields[i].doc)
  {
    if i > 0 {
      FindAt(fields[1..], i - 1);
      assert fields[0].key != fields[i].key;
    }
  }

  lemma {:induction false} LastOf(ms: seq<Member>, key: string)
    ensures Last(ms, key).None? ==> forall i :: 0 <= i < |ms| ==> ms[i].key != key
    ensures Last(ms, key).Some? ==> exists i :: 0 <= i < |ms| && ms[i] == Member(key, Last(ms, key).value)
  {
    if ms != [] && ms[|ms| - 1].key != key {
      LastOf(ms[..|ms| - 1], key);
    }
  }

  lemma {:induction false} FindNone(fields: seq<Field>, key: string)
    requires forall i :: 0 <= i < |fields| ==> fields[i].key != key
    ensures Find(fields, key).None?
  {
    if fields != [] {
      FindNone(fields[1..], key);
    }
  }

  /** With distinct keys the first field of a key is the last. */
  lemma LastMeaning(fields: seq<Field>, key: string, quote: Quote)
    requires Distinct(fields)
    ensures Last(Meanings(fields, quote), key)
         == if Find(fields, key).None? then None else Some(Meaning(Find(fields, key).value, quote))
  {
    var ms := Meanings(fields, quote);
    LastOf(ms, key);
    if Last(ms, key).None? {
      forall i | 0 <= i < |fields| ensures fields[i].key != key {
        assert ms[i].key != key;
      }
      FindNone(fields, key);
    } else {
      var i :| 0 <= i < |ms| && ms[i] == Member(key, Last(ms, key).value);
      FindAt(fields, i);
    }
  }

  lemma {:induction false} FindIsDistinct(fields: seq<Field>, key: string)
    requires forall i :: 0 <= i < |fields| ==> DistinctKeys(fields[i].doc)
    requires Find(fields, key).Some?
    ensures DistinctKeys(Find(fields, key).value)
  {
    if fields[0].key != key {
      FindIsDistinct(fields[1..], key);
    }
  }

  /** Reading the written text at a path finds the meaning of what the document has there. */
  lemma {:induction false} MeaningAt(d: Doc, path: seq<string>, quote: Quote)
    requires DistinctKeys(d)
    ensures At(Meaning(d, quote), path)
         == if DocAt(d, path).None? then None else Some(Meaning(DocAt(d, path).value, quote))
    decreases |path|
  {
    if path != [] && d.Made? {
      LastMeaning(d.fields, path[0], quote);
      if Find(d.fields, path[0]).Some? {
        FindIsDistinct(d.fields, path[0]);
        MeaningAt(Find(d.fields, path[0]).value, path[1..], quote);
      }
    }
  }

  /*** The rewritten package ***/

  lemma {:induction false} PutFrom(fs: seq<Member>, m: Member, p: Member)
    requires p in Put(fs, m)
    ensures p == m || p in fs
  {
    if fs != [] && fs[0].key != m.key && !Less(m.key, fs[0].key) && p != fs[0] {
      PutFrom(fs[1..], m, p);
    }
  }

  lemma {:induction false} FieldsFrom(ms: seq<Member>, p: Member)
    requires p in Fields(ms)
    ensures p in ms
  {
    if ms != [] {
      var n := |ms| - 1;
      PutFrom(Fields(ms[..n]), ms[n], p);
      if p != ms[n] {
        FieldsFrom(ms[..n], p);
      }
    }
  }

  lemma FieldParsed(read: Reader, j: Json, i: nat)
    requires Parsed(read, j) && j.shape.Object? && i < |Fields(j.shape.members)|
    ensures Parsed(read, Fields(j.shape.members)[i].value)
  {
    var p := Fields(j.shape.members)[i];
    FieldsFrom(j.shape.members, p);
    var k :| 0 <= k < |j.shape.members| && j.shape.members[k] == p;
  }

  lemma MappedDistinct(ms: seq<Member>, g: Member -> Doc)
    ensures Distinct(Mapped(Fields(ms), g))
  {
    FieldsSorted(ms);
    var fs := Fields(ms);
    forall i, j | 0 <= i < j < |fs| ensures fs[i].key != fs[j].key {
      LessTotal(fs[i].key, fs[j].key);
    }
  }

  /** A document that reads back and has one field per key. */
  ghost predicate Sound(read: Reader, d: Doc) {
    Grounded(read, d) && DistinctKeys(d)
  }

  lemma MappedSound(read: Reader, j: Json, g: Member -> Doc)
    requires Parsed(read, j) && j.shape.Object?
    requires forall m: Member :: Parsed(read, m.value) ==> Sound(read, g(m))
    ensures Sound(read, Made(Mapped(Fields(j.shape.members), g)))
  {
    var fs := Fields(j.shape.members);
    MappedDistinct(j.shape.members, g);
    forall i | 0 <= i < |fs| ensures Sound(read, Mapped(fs, g)[i].doc) {
      FieldParsed(read, j, i);
    }
  }

  lemma DistSound(read: Reader, f: string -> Option<string>, j: Json)
    requires Parsed(read, j)
    ensures Sound(read, DistDoc(f, j))
  {
    if j.shape.Object? {
      MappedSound(read, j, (m: Member) => DistField(f, m));
    }
  }

  lemma VersionSound(read: Reader, f: string -> Option<string>, j: Json)
    requires Parsed(read, j)
    ensures Sound(read, PackageDoc(f, j, false))
  {
    if j.shape.Object? {
      var g := (m: Member) => PackageField(f, m, false);
      forall m: Member | Parsed(read, m.value) ensures Sound(read, g(m)) {
        DistSound(read, f, m.value);
      }
      MappedSound(read, j, g);
    }
  }

  lemma VersionsSound(read: Reader, f: string -> Option<string>, j: Json)
    requires Parsed(read, j)
    ensures Sound(read, VersionsDoc(f, j))
  {
    if j.shape.Object? {
      var g := (m: Member) => PackageDoc(f, m.value, false);
      forall m: Member | Parsed(read, m.value) ensures Sound(read, g(m)) {
        VersionSound(read, f, m.value);
      }
      MappedSound(read, j, g);
    }
  }

  lemma PackageSound(read: Reader, f: string -> Option<string>, j: Json)
    requires Parsed(read, j)
    ensures Sound(read, PackageDoc(f, j, true))
  {
    if j.shape.Object? {
      var g := (m: Member) => PackageField(f, m, true);
      forall m: Member | Parsed(read, m.value) ensures Sound(read, g(m)) {
        DistSound(read, f, m.value);
        VersionsSound(read, f, m.value);
      }
      MappedSound(read, j, g);
    }
  }

  /** What the output has where the input has `v`. */
  ghost predicate TextFrame(f: string -> Option<string>, v: Json, w: Json, tarball: bool, spine: bool) {
    if tarball && NewLink(f, v).Some? then w.shape == Text(NewLink(f, v).value)
    else if spine && v.shape.Object? then
      && w.shape.Object?
      && forall key :: Last(w.shape.members, key).Some? == Last(v.shape.members, key).Some?
    else w == v
  }

  lemma FrameReads(f: string -> Option<string>, v: Json, d: Doc, tarball: bool, spine: bool, quote: Quote)
    requires Frame(f, v, d, tarball, spine) && DistinctKeys(d)
    ensures TextFrame(f, v, Meaning(d, quote), tarball, spine)
  {
    if d.Made? && SameKeys(v, d) {
      forall key ensures Last(Meanings(d.fields, quote), key).Some? == Last(v.shape.members, key).Some? {
        LastMeaning(d.fields, key, quote);
      }
    }
  }

  lemma {:induction false} DocAtDistinct(d: Doc, path: seq<string>)
    requires DistinctKeys(d) && DocAt(d, path).Some?
    ensures DistinctKeys(DocAt(d, path).value)
    decreases |path|
  {
    if path != [] && d.Made? {
      FindIsDistinct(d.fields, path[0]);
      DocAtDistinct(Find(d.fields, path[0]).value, path[1..]);
    }
  }

  /**
   * The frame, on text: reading what the rewriter wrote finds, at every path, the new link at the
   * tarball paths, objects with the same keys on the way there, and the input's own value elsewhere.
   */
  lemma NpmTextFrame(read: Reader, quote: Quote, f: string -> Option<string>, j: Json, path: seq<string>)
    requires ReadsJson(read, quote) && Parsed(read, j)
    ensures
      var out := read(Print(PackageDoc(f, j, true), quote));
      && out.Some?
      && At(out.value, path).Some? == At(j, path).Some?
      && (At(j, path).Some? ==>
            TextFrame(f, At(j, path).value, At(out.value, path).value, TarballPath(path), SpinePath(path)))
  {
    var d := PackageDoc(f, j, true);
    PackageSound(read, f, j);
    PrintReads(read, d, quote);
    MeaningAt(d, path, quote);
    NpmFrame(f, j, path);
    if At(j, path).Some? {
      DocAtDistinct(d, path);
      FrameReads(f, At(j, path).value, DocAt(d, path).value, TarballPath(path), SpinePath(path), quote);
    }
  }
}
