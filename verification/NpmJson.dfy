/** The npm metadata rewriter of src/routes.rs:190-281. */
module NpmJson {
  import opened Basics

  /*** Documents ***/

  /** A parsed value with its own text, as a raw value keeps it. Arrays, numbers and the rest are opaque. */
  datatype Json = Json(raw: Bytes, shape: Shape)

  datatype Shape = Object(members: seq<Member>) | Text(text: string) | Opaque

  datatype Member = Member(key: string, value: Json)

  /** The member a key names: the last duplicate wins. */
  function Last(ms: seq<Member>, key: string): Option<Json> {
    if ms == [] then None
    else if ms[|ms| - 1].key == key then Some(ms[|ms| - 1].value)
    else Last(ms[..|ms| - 1], key)
  }

  /** The value at a path of object keys. */
  function At(j: Json, path: seq<string>): Option<Json>
    decreases |path|
  {
    if path == [] then Some(j)
    else if !j.shape.Object? then None
    else
      var child := Last(j.shape.members, path[0]);
      if child.None? then None else At(child.value, path[1..])
  }

  /*** `BTreeMap<String, &RawValue>` ***/

  predicate Less(a: string, b: string) {
    b != [] && (a == [] || a[0] < b[0] || (a[0] == b[0] && Less(a[1..], b[1..])))
  }

  function Put(fs: seq<Member>, m: Member): seq<Member> {
    if fs == [] then [m]
    else if fs[0].key == m.key then [m] + fs[1..]
    else if Less(m.key, fs[0].key) then [m] + fs
    else [fs[0]] + Put(fs[1..], m)
  }

  function Fields(ms: seq<Member>): seq<Member> {
    if ms == [] then [] else Put(Fields(ms[..|ms| - 1]), ms[|ms| - 1])
  }

  function First(fs: seq<Member>, key: string): Option<Json> {
    if fs == [] then None
    else if fs[0].key == key then Some(fs[0].value)
    else First(fs[1..], key)
  }

  ghost predicate Sorted(fs: seq<Member>) {
    forall i, j :: 0 <= i < j < |fs| ==> Less(fs[i].key, fs[j].key)
  }

  /** `a` ends, or has the smaller character, where the two first differ. */
  predicate FirstDiffers(a: string, b: string, i: nat) {
    i <= |a| && i < |b| && a[..i] == b[..i] && (i == |a| || a[i] < b[i])
  }

  /** Keys are in lexicographic order. */
  lemma {:induction false} LessExact(a: string, b: string)
    ensures Less(a, b) <==> exists i: nat :: FirstDiffers(a, b, i)
  {
    if a != [] && b != [] && a[0] == b[0] {
      LessExact(a[1..], b[1..]);
      if Less(a, b) {
        var i: nat :| FirstDiffers(a[1..], b[1..], i);
        Shifted(a, b, i);
      }
      if i: nat :| FirstDiffers(a, b, i) {
        assert i > 0;
        Shifted(a, b, i - 1);
      }
    } else if b != [] && (a == [] || a[0] < b[0]) {
      assert FirstDiffers(a, b, 0);
    }
  }

  lemma Shifted(a: string, b: string, i: nat)
    requires a != [] && b != [] && a[0] == b[0]
    ensures FirstDiffers(a, b, i + 1) <==> FirstDiffers(a[1..], b[1..], i)
  {
    if i + 1 <= |a| && i + 1 <= |b| {
      assert a[..i + 1] == [a[0]] + a[1..][..i] && b[..i + 1] == [b[0]] + b[1..][..i];
      assert a[..i + 1][1..] == a[1..][..i] && b[..i + 1][1..] == b[1..][..i];
    }
  }

  lemma {:induction false} LessTransitive(a: string, b: string, c: string)
    requires Less(a, b) && Less(b, c)
    ensures Less(a, c)
  {
    if a != [] && a[0] == b[0] && b[0] == c[0] {
      LessTransitive(a[1..], b[1..], c[1..]);
    }
  }

  lemma {:induction false} LessTotal(a: string, b: string)
    ensures Less(a, b) || a == b || Less(b, a)
    ensures !Less(a, a)
  {
    if a != [] {
      LessTotal(a[1..], if b == [] then b else b[1..]);
      if b != [] && a[0] == b[0] && a[1..] == b[1..] {
        assert a == [a[0]] + a[1..] && b == [b[0]] + b[1..];
      }
    }
  }

  lemma {:induction false} PutAbove(fs: seq<Member>, m: Member, low: string)
    requires Less(low, m.key) && forall i :: 0 <= i < |fs| ==> Less(low, fs[i].key)
    ensures forall i :: 0 <= i < |Put(fs, m)| ==> Less(low, Put(fs, m)[i].key)
  {
    if fs != [] && fs[0].key != m.key && !Less(m.key, fs[0].key) {
      PutAbove(fs[1..], m, low);
    }
  }

  lemma {:induction false} PutSorts(fs: seq<Member>, m: Member)
    requires Sorted(fs)
    ensures Sorted(Put(fs, m))
  {
    if fs != [] && fs[0].key != m.key {
      if Less(m.key, fs[0].key) {
        forall j | 0 < j < |fs| ensures Less(m.key, fs[j].key) {
          LessTransitive(m.key, fs[0].key, fs[j].key);
        }
      } else {
        LessTotal(fs[0].key, m.key);
        PutSorts(fs[1..], m);
        PutAbove(fs[1..], m, fs[0].key);
      }
    }
  }

  /** One field per key, in key order. */
  lemma {:induction false} FieldsSorted(ms: seq<Member>)
    ensures Sorted(Fields(ms))
  {
    if ms != [] {
      FieldsSorted(ms[..|ms| - 1]);
      PutSorts(Fields(ms[..|ms| - 1]), ms[|ms| - 1]);
    }
  }

  lemma {:induction false} PutFirst(fs: seq<Member>, m: Member, key: string)
    ensures First(Put(fs, m), key) == if key == m.key then Some(m.value) else First(fs, key)
  {
    if fs != [] {
      PutFirst(fs[1..], m, key);
      var r := Put(fs, m);
      assert fs[0].key == m.key ==> r[1..] == fs[1..];
      assert fs[0].key != m.key && Less(m.key, fs[0].key) ==> r[1..] == fs;
      assert fs[0].key != m.key && !Less(m.key, fs[0].key) ==> r[1..] == Put(fs[1..], m);
    }
  }

  /** The map holds the last member of every key. */
  lemma {:induction false} FieldsHoldLast(ms: seq<Member>, key: string)
    ensures First(Fields(ms), key) == Last(ms, key)
  {
    if ms != [] {
      FieldsHoldLast(ms[..|ms| - 1], key);
      PutFirst(Fields(ms[..|ms| - 1]), ms[|ms| - 1], key);
    }
  }

  /*** What is written ***/

  /** Output: a value copied verbatim, an object written member by member, or a new link. */
  datatype Doc = Raw(value: Json) | Made(fields: seq<Field>) | Link(url: string)

  datatype Field = Field(key: string, doc: Doc)

  function Mapped(fs: seq<Member>, g: Member -> Doc): (r: seq<Field>)
    ensures |r| == |fs| && forall i :: 0 <= i < |fs| ==> r[i] == Field(fs[i].key, g(fs[i]))
  {
    seq(|fs|, i requires 0 <= i < |fs| => Field(fs[i].key, g(fs[i])))
  }

  /** How `write_npm_dist` writes one field, given the link rewriter. */
  function DistField(f: string -> Option<string>, m: Member): Doc {
    if m.key == "tarball" && m.value.shape.Text? && f(m.value.shape.text).Some?
    then Link(f(m.value.shape.text).value)
    else Raw(m.value)
  }

  function DistDoc(f: string -> Option<string>, j: Json): Doc {
    if !j.shape.Object? then Raw(j) else Made(Mapped(Fields(j.shape.members), (m: Member) => DistField(f, m)))
  }

  /** How `write_npm_package` writes one field; `deep` is `rewrite_versions`. */
  function PackageField(f: string -> Option<string>, m: Member, deep: bool): Doc
    decreases deep, 1
  {
    if m.key == "dist" then DistDoc(f, m.value)
    else if deep && m.key == "versions" then VersionsDoc(f, m.value)
    else Raw(m.value)
  }

  function PackageDoc(f: string -> Option<string>, j: Json, deep: bool): Doc
    decreases deep, 2
  {
    if !j.shape.Object? then Raw(j) else Made(Mapped(Fields(j.shape.members), (m: Member) => PackageField(f, m, deep)))
  }

  function VersionsDoc(f: string -> Option<string>, j: Json): Doc
    decreases true, 0
  {
    if !j.shape.Object? then Raw(j) else Made(Mapped(Fields(j.shape.members), (m: Member) => PackageDoc(f, m.value, false)))
  }

  /*** The meaning of what is written ***/

  function Find(fs: seq<Field>, key: string): Option<Doc> {
    if fs == [] then None
    else if fs[0].key == key then Some(fs[0].doc)
    else Find(fs[1..], key)
  }

  /** The output at a path. */
  function DocAt(d: Doc, path: seq<string>): Option<Doc>
    decreases |path|
  {
    if path == [] then Some(d)
    else
      match d
      case Raw(j) => (var v := At(j, path); if v.Some? then Some(Raw(v.value)) else None)
      case Made(fs) => (var child := Find(fs, path[0]); if child.None? then None else DocAt(child.value, path[1..]))
      case Link(_) => None
  }

  lemma {:induction false} FindMapped(fs: seq<Member>, g: Member -> Doc, key: string)
    ensures Find(Mapped(fs, g), key)
         == if First(fs, key).None? then None else Some(g(Member(key, First(fs, key).value)))
  {
    if fs != [] {
      FindMapped(fs[1..], g, key);
      assert Mapped(fs, g)[1..] == Mapped(fs[1..], g);
    }
  }

  /** Following a path through a written object follows it through the object it was written from. */
  lemma Descend(j: Json, g: Member -> Doc, path: seq<string>)
    requires j.shape.Object? && path != []
    ensures
      var child := Last(j.shape.members, path[0]);
      && (child.None? ==> At(j, path).None? && DocAt(Made(Mapped(Fields(j.shape.members), g)), path).None?)
      && (child.Some? ==>
            && At(j, path) == At(child.value, path[1..])
            && DocAt(Made(Mapped(Fields(j.shape.members), g)), path) == DocAt(g(Member(path[0], child.value)), path[1..]))
  {
    FieldsHoldLast(j.shape.members, path[0]);
    FindMapped(Fields(j.shape.members), g, path[0]);
  }

  /** An object is written as an object with exactly its keys. */
  ghost predicate SameKeys(j: Json, d: Doc) {
    j.shape.Object? && d.Made? && forall key :: Find(d.fields, key).Some? == Last(j.shape.members, key).Some?
  }

  /** The link a value is replaced by, if it is a string the rewriter accepts. */
  function NewLink(f: string -> Option<string>, v: Json): Option<string> {
    if v.shape.Text? then f(v.shape.text) else None
  }

  /**
   * What the output holds where the input holds `v`: at a tarball path the new link; on the way
   * to one an object with the same keys; elsewhere, and for every non-object, `v` verbatim.
   */
  ghost predicate Frame(f: string -> Option<string>, v: Json, d: Doc, tarball: bool, spine: bool) {
    if tarball && NewLink(f, v).Some? then d == Link(NewLink(f, v).value)
    else if spine && v.shape.Object? then SameKeys(v, d)
    else d == Raw(v)
  }

  ghost predicate FrameAt(f: string -> Option<string>, j: Json, d: Doc, path: seq<string>, tarball: bool, spine: bool) {
    && DocAt(d, path).Some? == At(j, path).Some?
    && (At(j, path).Some? ==> Frame(f, At(j, path).value, DocAt(d, path).value, tarball, spine))
  }

  /** `dist.tarball` and `versions.*.dist.tarball`. */
  predicate TarballPath(path: seq<string>) {
    path == ["dist", "tarball"] || (|path| == 4 && path[0] == "versions" && path[2..] == ["dist", "tarball"])
  }

  /** The objects on the way there. */
  predicate SpinePath(path: seq<string>) {
    || path == [] || path == ["dist"] || path == ["versions"]
    || (|path| == 2 && path[0] == "versions")
    || (|path| == 3 && path[0] == "versions" && path[2] == "dist")
  }

  lemma MadeKeepsKeys(j: Json, g: Member -> Doc)
    requires j.shape.Object?
    ensures SameKeys(j, Made(Mapped(Fields(j.shape.members), g)))
  {
    forall key ensures
      Find(Mapped(Fields(j.shape.members), g), key).Some? == Last(j.shape.members, key).Some?
    {
      FieldsHoldLast(j.shape.members, key);
      FindMapped(Fields(j.shape.members), g, key);
    }
  }

  lemma RawFrame(f: string -> Option<string>, j: Json, path: seq<string>)
    ensures FrameAt(f, j, Raw(j), path, false, false)
  {
  }

  lemma DistFrame(f: string -> Option<string>, j: Json, path: seq<string>)
    ensures FrameAt(f, j, DistDoc(f, j), path, path == ["tarball"], path == [])
  {
    if !j.shape.Object? {
      RawFrame(f, j, path);
    } else if path == [] {
      MadeKeepsKeys(j, (m: Member) => DistField(f, m));
    } else {
      Descend(j, (m: Member) => DistField(f, m), path);
      var child := Last(j.shape.members, path[0]);
      if child.Some? {
        RawFrame(f, child.value, path[1..]);
        assert path == [path[0]] + path[1..];
      }
    }
  }

  /** One version: its `versions`, if it has any, is untouched. */
  lemma VersionFrame(f: string -> Option<string>, j: Json, path: seq<string>)
    ensures FrameAt(f, j, PackageDoc(f, j, false), path, path == ["dist", "tarball"], path == [] || path == ["dist"])
  {
    if !j.shape.Object? {
      RawFrame(f, j, path);
    } else if path == [] {
      MadeKeepsKeys(j, (m: Member) => PackageField(f, m, false));
    } else {
      Descend(j, (m: Member) => PackageField(f, m, false), path);
      var child := Last(j.shape.members, path[0]);
      assert path == [path[0]] + path[1..];
      if child.Some? {
        RawFrame(f, child.value, path[1..]);
        DistFrame(f, child.value, path[1..]);
      }
    }
  }

  lemma VersionsFrame(f: string -> Option<string>, j: Json, path: seq<string>)
    ensures FrameAt(f, j, VersionsDoc(f, j), path,
                    |path| == 3 && path[1..] == ["dist", "tarball"],
                    |path| <= 1 || (|path| == 2 && path[1] == "dist"))
  {
    if !j.shape.Object? {
      RawFrame(f, j, path);
    } else if path == [] {
      MadeKeepsKeys(j, (m: Member) => PackageDoc(f, m.value, false));
    } else {
      Descend(j, (m: Member) => PackageDoc(f, m.value, false), path);
      var child := Last(j.shape.members, path[0]);
      if child.Some? {
        VersionFrame(f, child.value, path[1..]);
      }
    }
  }

  /**
   * The whole frame: at every path the output is there exactly when the input is, it is a new link
   * exactly at the tarball paths whose string the rewriter accepts, and it is the input's own text
   * everywhere else but on the objects that lead there, which keep their keys.
   */
  lemma NpmFrame(f: string -> Option<string>, j: Json, path: seq<string>)
    ensures FrameAt(f, j, PackageDoc(f, j, true), path, TarballPath(path), SpinePath(path))
  {
    if !j.shape.Object? {
      RawFrame(f, j, path);
    } else if path == [] {
      MadeKeepsKeys(j, (m: Member) => PackageField(f, m, true));
    } else {
      Descend(j, (m: Member) => PackageField(f, m, true), path);
      var child := Last(j.shape.members, path[0]);
      assert path == [path[0]] + path[1..];
      if child.Some? {
        if path[0] == "dist" {
          DistFrame(f, child.value, path[1..]);
        } else if path[0] == "versions" {
          VersionsFrame(f, child.value, path[1..]);
          assert |path| > 1 ==> path[1..][1..] == path[2..];
        } else {
          RawFrame(f, child.value, path[1..]);
        }
      }
    }
  }

  /** A `versions` object inside a version is copied verbatim. */
  lemma NestedVersionsUntouched(f: string -> Option<string>, j: Json, version: string, path: seq<string>)
    requires At(j, ["versions", version, "versions"] + path).Some?
    ensures DocAt(PackageDoc(f, j, true), ["versions", version, "versions"] + path)
         == Some(Raw(At(j, ["versions", version, "versions"] + path).value))
  {
    NpmFrame(f, j, ["versions", version, "versions"] + path);
    assert (["versions", version, "versions"] + path)[2] == "versions";
  }
}
