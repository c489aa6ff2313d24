/** The writers of src/routes.rs:190-281: bounded output, object by object and field by field. */
module NpmWriter {
  import opened Basics
  import opened LimitedOutput
  import opened NpmJson

  // "{", "}", "," and ":"
  const OPEN: Bytes := [0x7b]
  const CLOSE: Bytes := [0x7d]
  const COMMA: Bytes := [0x2c]
  const COLON: Bytes := [0x3a]

  type Quote = string -> Bytes

  /*** The text of a document; `quote` is the JSON text of a string ***/

  function Print(d: Doc, quote: Quote): Bytes
    decreases d
  {
    match d
    case Raw(j) => j.raw
    case Link(url) => quote(url)
    case Made(fields) => OPEN + PrintFields(fields, quote) + CLOSE
  }

  function Lead(key: string, index: nat, quote: Quote): Bytes {
    (if index > 0 then COMMA else []) + quote(key) + COLON
  }

  function PrintFields(fields: seq<Field>, quote: Quote): Bytes
    decreases fields
  {
    if fields == [] then []
    else
      var n := |fields| - 1;
      PrintFields(fields[..n], quote) + (Lead(fields[n].key, n, quote) + Print(fields[n].doc, quote))
  }

  lemma PrintStep(fields: seq<Field>, i: nat, quote: Quote)
    requires i < |fields|
    ensures PrintFields(fields[..i + 1], quote)
         == PrintFields(fields[..i], quote) + (Lead(fields[i].key, i, quote) + Print(fields[i].doc, quote))
  {
    assert fields[..i + 1][..i] == fields[..i];
  }

  lemma {:induction false} PrintGrows(fields: seq<Field>, i: nat, quote: Quote)
    requires i <= |fields|
    ensures |PrintFields(fields[..i], quote)| <= |PrintFields(fields, quote)|
    decreases |fields|
  {
    if i < |fields| {
      var n := |fields| - 1;
      assert fields[..n][..i] == fields[..i];
      PrintGrows(fields[..n], i, quote);
    } else {
      assert fields[..i] == fields;
    }
  }

  /*** Writing with a limit ***/

  /** The text was written in full, or does not fit. */
  ghost predicate Wrote(before: Bytes, after: Bytes, text: Bytes, limit: nat, ok: bool) {
    if ok then after == before + text && |after| <= limit else |before| + |text| > limit
  }

  /** Comma, key and colon. */
  method WriteLead(output: Output, key: string, index: nat, quote: Quote) returns (ok: bool)
    requires output.Valid()
    modifies output
    ensures output.Valid() && Wrote(old(output.bytes), output.bytes, Lead(key, index, quote), output.maxLen, ok)
  {
    ok := true;
    if index > 0 {
      ok := output.Extend(COMMA);
    }
    if ok {
      ok := output.Extend(quote(key));
    }
    if ok {
      ok := output.Extend(COLON);
    }
  }

  /** So far an object is written up to its first `i` fields. */
  ghost predicate Partly(before: Bytes, now: Bytes, fields: seq<Field>, i: nat, quote: Quote)
    requires i <= |fields|
  {
    now == before + OPEN + PrintFields(fields[..i], quote)
  }

  /** One more field, or the object does not fit. */
  lemma FieldWritten(before: Bytes, at: Bytes, mid: Bytes, now: Bytes, fields: seq<Field>, i: nat, quote: Quote,
                     limit: nat, ok: bool)
    requires i < |fields| && Partly(before, at, fields, i, quote)
    requires mid == at + Lead(fields[i].key, i, quote) && Wrote(mid, now, Print(fields[i].doc, quote), limit, ok)
    ensures ok ==> Partly(before, now, fields, i + 1, quote)
    ensures !ok ==> |before| + |Print(Made(fields), quote)| > limit
  {
    PrintStep(fields, i, quote);
    PrintGrows(fields, i + 1, quote);
    var lead, text := Lead(fields[i].key, i, quote), Print(fields[i].doc, quote);
    if ok {
      assert before + OPEN + PrintFields(fields[..i], quote) + lead + text
          == before + OPEN + (PrintFields(fields[..i], quote) + (lead + text));
    }
  }

  lemma LeadTooLong(before: Bytes, at: Bytes, fields: seq<Field>, i: nat, quote: Quote, limit: nat)
    requires i < |fields| && Partly(before, at, fields, i, quote)
    requires |at| + |Lead(fields[i].key, i, quote)| > limit
    ensures |before| + |Print(Made(fields), quote)| > limit
  {
    PrintStep(fields, i, quote);
    PrintGrows(fields, i + 1, quote);
  }

  /** The closing brace. */
  method WriteClose(output: Output, ghost before: Bytes, ghost fields: seq<Field>, ghost quote: Quote) returns (ok: bool)
    requires output.Valid() && Partly(before, output.bytes, fields, |fields|, quote)
    modifies output
    ensures output.Valid() && Wrote(before, output.bytes, Print(Made(fields), quote), output.maxLen, ok)
  {
    assert fields[..|fields|] == fields;
    ghost var body := PrintFields(fields, quote);
    ok := output.Extend(CLOSE);
    assert before + OPEN + body + CLOSE == before + (OPEN + body + CLOSE);
  }

  /** The value of one field of a distribution: the new link, or the value verbatim. */
  method WriteDistValue(output: Output, m: Member, f: string -> Option<string>, quote: Quote) returns (ok: bool)
    requires output.Valid()
    modifies output
    ensures output.Valid()
    ensures Wrote(old(output.bytes), output.bytes, Print(DistField(f, m), quote), output.maxLen, ok)
  {
    if m.key == "tarball" && m.value.shape.Text? && f(m.value.shape.text).Some? {
      ok := output.Extend(quote(f(m.value.shape.text).value));
    } else {
      ok := output.Extend(m.value.raw);
    }
  }

  /** `write_npm_dist`. */
  method WriteDist(output: Output, value: Json, f: string -> Option<string>, quote: Quote) returns (ok: bool)
    requires output.Valid()
    modifies output
    ensures output.Valid()
    ensures Wrote(old(output.bytes), output.bytes, Print(DistDoc(f, value), quote), output.maxLen, ok)
  {
    if !value.shape.Object? {
      ok := output.Extend(value.raw);
      return;
    }
    var fields := Fields(value.shape.members);
    ghost var docs := Mapped(fields, (m: Member) => DistField(f, m));
    ghost var before := output.bytes;
    ok := output.Extend(OPEN);
    if !ok {
      return;
    }
    for i := 0 to |fields|
      invariant output.Valid() && Partly(before, output.bytes, docs, i, quote)
    {
      ghost var at := output.bytes;
      ok := WriteLead(output, fields[i].key, i, quote);
      if !ok {
        LeadTooLong(before, at, docs, i, quote, output.maxLen);
        return;
      }
      ghost var mid := output.bytes;
      ok := WriteDistValue(output, fields[i], f, quote);
      FieldWritten(before, at, mid, output.bytes, docs, i, quote, output.maxLen, ok);
      if !ok {
        return;
      }
    }
    ok := WriteClose(output, before, docs, quote);
  }

  /** `write_npm_package`. */
  method WritePackage(output: Output, value: Json, f: string -> Option<string>, quote: Quote, deep: bool) returns (ok: bool)
    requires output.Valid()
    modifies output
    ensures output.Valid()
    ensures Wrote(old(output.bytes), output.bytes, Print(PackageDoc(f, value, deep), quote), output.maxLen, ok)
    decreases deep, 1
  {
    if !value.shape.Object? {
      ok := output.Extend(value.raw);
      return;
    }
    var fields := Fields(value.shape.members);
    ghost var docs := Mapped(fields, (m: Member) => PackageField(f, m, deep));
    ghost var before := output.bytes;
    ok := output.Extend(OPEN);
    if !ok {
      return;
    }
    for i := 0 to |fields|
      invariant output.Valid() && Partly(before, output.bytes, docs, i, quote)
    {
      ghost var at := output.bytes;
      ok := WriteLead(output, fields[i].key, i, quote);
      if !ok {
        LeadTooLong(before, at, docs, i, quote, output.maxLen);
        return;
      }
      ghost var mid := output.bytes;
      if fields[i].key == "dist" {
        ok := WriteDist(output, fields[i].value, f, quote);
      } else if deep && fields[i].key == "versions" {
        ok := WriteVersions(output, fields[i].value, f, quote);
      } else {
        ok := output.Extend(fields[i].value.raw);
      }
      FieldWritten(before, at, mid, output.bytes, docs, i, quote, output.maxLen, ok);
      if !ok {
        return;
      }
    }
    ok := WriteClose(output, before, docs, quote);
  }

  /** `write_npm_versions`. */
  method WriteVersions(output: Output, value: Json, f: string -> Option<string>, quote: Quote) returns (ok: bool)
    requires output.Valid()
    modifies output
    ensures output.Valid()
    ensures Wrote(old(output.bytes), output.bytes, Print(VersionsDoc(f, value), quote), output.maxLen, ok)
    decreases true, 0
  {
    if !value.shape.Object? {
      ok := output.Extend(value.raw);
      return;
    }
    var fields := Fields(value.shape.members);
    ghost var docs := Mapped(fields, (m: Member) => PackageDoc(f, m.value, false));
    ghost var before := output.bytes;
    ok := output.Extend(OPEN);
    if !ok {
      return;
    }
    for i := 0 to |fields|
      invariant output.Valid() && Partly(before, output.bytes, docs, i, quote)
    {
      ghost var at := output.bytes;
      ok := WriteLead(output, fields[i].key, i, quote);
      if !ok {
        LeadTooLong(before, at, docs, i, quote, output.maxLen);
        return;
      }
      ghost var mid := output.bytes;
      ok := WritePackage(output, fields[i].value, f, quote, false);
      FieldWritten(before, at, mid, output.bytes, docs, i, quote, output.maxLen, ok);
      if !ok {
        return;
      }
    }
    ok := WriteClose(output, before, docs, quote);
  }

  /**
   * `rewrite_npm_json`, given the parsed body: the bounded rewrite succeeds exactly when the
   * unbounded one fits, and then equals it.
   */
  method RewriteNpmJson(value: Option<Json>, f: string -> Option<string>, quote: Quote, maxLen: nat)
    returns (r: Option<Bytes>)
    ensures value.None? ==> r == None
    ensures value.Some? ==>
      var text := Print(PackageDoc(f, value.value, true), quote);
      r == if |text| <= maxLen && |text| <= MAX_METADATA_BODY_LEN then Some(text) else None
  {
    if value.None? {
      return None;
    }
    var limit := if maxLen < MAX_METADATA_BODY_LEN then maxLen else MAX_METADATA_BODY_LEN;
    var output := new Output(limit);
    var ok := WritePackage(output, value.value, f, quote, true);
    ghost var text := Print(PackageDoc(f, value.value, true), quote);
    assert [] + text == text;
    r := if ok then Some(output.bytes) else None;
  }
}
