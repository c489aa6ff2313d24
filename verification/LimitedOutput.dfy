/** The bounded buffer of src/routes.rs:12-43. */
module LimitedOutput {
  import opened Basics

  class Output {
    var bytes: Bytes
    const maxLen: nat

    constructor (maxLen: nat)
      ensures bytes == [] && this.maxLen == maxLen
    {
      this.bytes := [];
      this.maxLen := maxLen;
    }

    ghost predicate Valid()
      reads this
    {
      |bytes| <= maxLen
    }

    /** All of the piece or nothing of it. */
    method Extend(piece: Bytes) returns (ok: bool)
      requires Valid()
      modifies this
      ensures Valid()
      ensures ok == (|old(bytes)| + |piece| <= maxLen)
      ensures bytes == if ok then old(bytes) + piece else old(bytes)
    {
      ok := |bytes| + |piece| <= maxLen;
      if ok {
        bytes := bytes + piece;
      }
    }
  }
}
