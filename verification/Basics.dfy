/** Types shared by the whole model. */
module Basics {

  /** One octet of a file, a URL or a document. */
  type Byte = b: int | 0 <= b < 256

  type Bytes = seq<Byte>

  datatype Option<+T> = None | Some(value: T)

  /** `io::Result`, with the error reduced to what callers branch on. */
  datatype Result<+T, +E> = Ok(value: T) | Err(error: E)

  /** The hard limit on metadata bodies, 128 MiB. */
  const MAX_METADATA_BODY_LEN: nat := 0x800_0000

  /** `u64::saturating_sub`. */
  function SaturatingSub(a: nat, b: nat): nat {
    if a < b then 0 else a - b
  }

  /** `part` starts at position `i` of `s`. */
  predicate OccursAt<T(==)>(s: seq<T>, part: seq<T>, i: nat) {
    i + |part| <= |s| && s[i..i + |part|] == part
  }

  /** The bytes of a text of plain characters. */
  function Ascii(s: string): (b: Bytes)
    requires forall i :: 0 <= i < |s| ==> s[i] as int < 128
    ensures |b| == |s| && forall i :: 0 <= i < |s| ==> b[i] == s[i] as int
  {
    seq(|s|, i requires 0 <= i < |s| => s[i] as int)
  }
}
