/** Metadata memory reservations: src/cache.rs:373-410 and src/proxy.rs:510-571. */
module Reservation {
  import opened Basics
  import StoredEntries

  const MIB: nat := 1048576
  const BUDGET: nat := 1024
  const U32_MAX: nat := 0xffff_ffff
  const CHUNK_CAPACITY: nat := 65536

  datatype Error = WouldBlock | InvalidData | Upstream

  /** `bytes.div_ceil(MIB).max(1)`. */
  function Units(bytes: nat): nat {
    var units := (bytes + MIB - 1) / MIB;
    if units < 1 then 1 else units
  }

  /** The least positive number of whole MiB that covers the bytes. */
  lemma UnitsAreLeast(bytes: nat, n: nat)
    ensures 1 <= Units(bytes) && bytes <= Units(bytes) * MIB
    ensures 1 <= n && bytes <= n * MIB ==> Units(bytes) <= n
  {
  }

  /*** One reservation against one semaphore ***/

  class Semaphore {
    var available: nat

    constructor (permits: nat)
      ensures available == permits
    {
      available := permits;
    }

    /** `try_acquire_many_owned`. */
    method TryAcquireMany(n: nat) returns (ok: bool)
      modifies this
      ensures ok == (n <= old(available))
      ensures available == if ok then old(available) - n else old(available)
    {
      ok := n <= available;
      if ok {
        available := available - n;
      }
    }
  }

  class MemoryReservation {
    const semaphore: Semaphore
    var permit: Option<nat>

    constructor (semaphore: Semaphore)
      ensures this.semaphore == semaphore && permit == None
    {
      this.semaphore := semaphore;
      this.permit := None;
    }

    function Held(): nat
      reads this
    {
      if permit.Some? then permit.value else 0
    }

    /** The semaphore with this reservation as its only one. */
    ghost function Snapshot(): Budget
      reads this, semaphore
    {
      Budget(semaphore.available, [Held()])
    }

    /** `reserve`: grow to cover the bytes, or fail and change nothing. */
    method Reserve(bytes: nat) returns (ok: bool)
      requires semaphore.available <= BUDGET
      modifies this, semaphore
      ensures ok <==> Units(bytes) <= old(Held() + semaphore.available)
      ensures ok ==> permit == Some(Max(old(Held()), Units(bytes)))
      ensures !ok ==> permit == old(permit)
      ensures Held() + semaphore.available == old(Held() + semaphore.available)
      ensures Snapshot() == Step(old(Snapshot()), Op.Reserve(0, bytes))
    {
      var required := Units(bytes);
      var held := Held();
      if required <= held {
        return true;
      }
      if required - held > U32_MAX {
        return false;
      }
      ok := semaphore.TryAcquireMany(required - held);
      if ok {
        permit := Some(held + (required - held));
      }
    }

    /** Dropping the reservation, or the body its permit moved into, gives every unit back. */
    method Release()
      modifies this, semaphore
      ensures permit == None && semaphore.available == old(Held() + semaphore.available)
      ensures Snapshot() == Step(old(Snapshot()), Op.Release(0))
    {
      semaphore.available := semaphore.available + Held();
      permit := None;
    }
  }

  function Max(a: nat, b: nat): nat {
    if a < b then b else a
  }

  /*** Any number of reservations ***/

  /** Free units, and the units of every reservation ever made; a dropped one holds none. */
  datatype Budget = Budget(available: nat, held: seq<nat>)

  datatype Op = Open | Reserve(id: nat, bytes: nat) | Release(id: nat)

  function Step(b: Budget, op: Op): Budget {
    match op
    case Open => b.(held := b.held + [0])
    case Reserve(id, bytes) =>
      if id >= |b.held| || Units(bytes) > b.held[id] + b.available then b
      else
        var held := Max(b.held[id], Units(bytes));
        Budget(b.available - (held - b.held[id]), b.held[id := held])
    case Release(id) =>
      if id >= |b.held| then b
      else Budget(b.available + b.held[id], b.held[id := 0])
  }

  function After(b: Budget, ops: seq<Op>): Budget {
    if ops == [] then b else Step(After(b, ops[..|ops| - 1]), ops[|ops| - 1])
  }

  function Sum(held: seq<nat>): nat {
    if held == [] then 0 else Sum(held[..|held| - 1]) + held[|held| - 1]
  }

  lemma {:induction false} SumUpdate(held: seq<nat>, i: nat, n: nat)
    requires i < |held|
    ensures Sum(held[i := n]) == Sum(held) - held[i] + n
  {
    var last := |held| - 1;
    if i == last {
      assert held[i := n][..last] == held[..last];
    } else {
      assert held[i := n][..last] == held[..last][i := n];
      SumUpdate(held[..last], i, n);
    }
  }

  /** No sequence of reservations and drops creates or loses a unit. */
  lemma {:induction false} UnitsConserved(ops: seq<Op>)
    ensures
      var b := After(Budget(BUDGET, []), ops);
      b.available + Sum(b.held) == BUDGET
  {
    if ops != [] {
      var n := |ops| - 1;
      UnitsConserved(ops[..n]);
      var b := After(Budget(BUDGET, []), ops[..n]);
      match ops[n]
      case Open =>
        assert (b.held + [0])[..|b.held|] == b.held;
      case Reserve(id, bytes) =>
        if id < |b.held| {
          SumUpdate(b.held, id, Max(b.held[id], Units(bytes)));
        }
      case Release(id) =>
        if id < |b.held| {
          SumUpdate(b.held, id, 0);
        }
    }
  }

  lemma {:induction false} SumBounds(held: seq<nat>, i: nat)
    requires i < |held|
    ensures held[i] <= Sum(held)
  {
    if i < |held| - 1 {
      SumBounds(held[..|held| - 1], i);
    }
  }

  /** No reservation ever holds more than the budget, and what is released is free again. */
  lemma ReleaseRestores(ops: seq<Op>, id: nat)
    requires id < |After(Budget(BUDGET, []), ops).held|
    ensures
      var b := After(Budget(BUDGET, []), ops);
      var freed := After(Budget(BUDGET, []), ops + [Release(id)]);
      b.held[id] <= BUDGET && freed.available == b.available + b.held[id] && freed.held[id] == 0
  {
    var b := After(Budget(BUDGET, []), ops);
    UnitsConserved(ops);
    SumBounds(b.held, id);
    assert (ops + [Release(id)])[..|ops|] == ops;
  }

  /*** Reading a metadata body ***/

  /** `limited_initial_capacity`. */
  function InitialCapacity(contentLength: Option<nat>, maxLen: nat): (r: Result<nat, Error>)
    ensures r.Err? <==> contentLength.Some? && contentLength.value > maxLen
    ensures r.Ok? && contentLength.Some? ==> r.value <= contentLength.value
  {
    if contentLength.None? then Ok(0)
    else if contentLength.value > maxLen then Err(InvalidData)
    else Ok(if contentLength.value < CHUNK_CAPACITY then contentLength.value else CHUNK_CAPACITY)
  }

  /** Units the other tasks hold at a moment, at most what this one leaves. */
  function Others(others: nat -> nat, t: nat, held: nat): nat
    requires held <= BUDGET
    ensures Others(others, t, held) <= BUDGET - held
  {
    if others(t) <= BUDGET - held then others(t) else BUDGET - held
  }

  /** A length is within the limit and within the reserved memory. */
  predicate Covered(len: nat, held: nat) {
    len <= MAX_METADATA_BODY_LEN && len <= held * MIB
  }

  /** At some moment the other tasks left too little for a length this response really has or announces. */
  ghost predicate Contended(others: nat -> nat, most: nat) {
    exists t: nat, n: nat :: n <= most && n <= MAX_METADATA_BODY_LEN && Units(n) + others(t) > BUDGET
  }

  function Announced(contentLength: Option<nat>): nat {
    if contentLength.Some? then contentLength.value else 0
  }

  /** Other tasks run: the semaphore holds what they and this reservation leave. */
  method Elapse(reservation: MemoryReservation, others: nat -> nat, t: nat)
    requires reservation.Held() <= BUDGET
    modifies reservation.semaphore
    ensures reservation.semaphore.available == BUDGET - reservation.Held() - Others(others, t, reservation.Held())
  {
    reservation.semaphore.available := BUDGET - reservation.Held() - Others(others, t, reservation.Held());
  }

  /**
   * `reserve` for a length within the limit, after other tasks ran: the budget is respected and
   * only their units can make it fail.
   */
  method Claim(reservation: MemoryReservation, len: nat, others: nat -> nat, t: nat, ghost most: nat) returns (ok: bool)
    requires reservation.Held() <= BUDGET && len <= MAX_METADATA_BODY_LEN && len <= most
    modifies reservation, reservation.semaphore
    ensures old(reservation.Held()) <= reservation.Held() <= BUDGET
    ensures reservation.Held() + reservation.semaphore.available + Others(others, t, old(reservation.Held())) == BUDGET
    ensures ok ==> Covered(len, reservation.Held())
    ensures !ok ==> Contended(others, most)
  {
    Elapse(reservation, others, t);
    ok := reservation.Reserve(len);
    UnitsAreLeast(len, 1);
  }

  /**
   * A list of buffer lengths with the units held at each: all covered, and after the first, the
   * initial capacity, each the length of the chunks so far.
   */
  ghost predicate Traced(lengths: seq<(nat, nat)>, chunks: seq<Bytes>) {
    && |lengths| <= |chunks| + 1
    && (forall i :: 0 <= i < |lengths| ==> lengths[i].0 <= 128 * 1048576 && lengths[i].0 <= lengths[i].1 * 1048576)
    && (forall i :: 0 < i < |lengths| ==> lengths[i].0 == |StoredEntries.Concat(chunks[..i])|)
  }

  /**
   * `read_metadata_body`: `complete` is false when the stream breaks after the given chunks, and
   * `others` says what other tasks hold whenever this one runs. `lengths` lists every length the
   * buffer had with the units held at that moment.
   */
  method ReadMetadataBody(chunks: seq<Bytes>, complete: bool, contentLength: Option<nat>,
                          reservation: MemoryReservation, others: nat -> nat)
    returns (r: Result<Bytes, Error>, ghost lengths: seq<(nat, nat)>)
    requires reservation.Held() <= BUDGET
    modifies reservation, reservation.semaphore
    ensures old(reservation.Held()) <= reservation.Held() <= BUDGET
    ensures Traced(lengths, chunks)
    ensures r.Ok? ==> complete && r.value == StoredEntries.Concat(chunks)
    ensures r.Ok? ==> |lengths| == |chunks| + 1
    ensures r.Ok? ==> |r.value| <= 128 * 1048576 && |r.value| <= reservation.Held() * 1048576
    ensures r == Err(Upstream) ==> !complete
    ensures r == Err(InvalidData) ==> Max(Announced(contentLength), |StoredEntries.Concat(chunks)|) > MAX_METADATA_BODY_LEN
    ensures r == Err(WouldBlock) ==> Contended(others, Max(Announced(contentLength), |StoredEntries.Concat(chunks)|))
    ensures Announced(contentLength) > MAX_METADATA_BODY_LEN ==> r == Err(InvalidData) && reservation.permit == old(reservation.permit)
  {
    lengths := [];
    var capacity := InitialCapacity(contentLength, MAX_METADATA_BODY_LEN);
    if capacity.Err? {
      return Err(capacity.error), lengths;
    }
    ghost var most := Max(Announced(contentLength), |StoredEntries.Concat(chunks)|);
    var ok := Claim(reservation, Announced(contentLength), others, 0, most);
    if !ok {
      return Err(WouldBlock), lengths;
    }
    var body: Bytes := [];
    lengths := [(capacity.value, reservation.Held())];
    for i := 0 to |chunks|
      invariant body == StoredEntries.Concat(chunks[..i])
      invariant old(reservation.Held()) <= reservation.Held() <= BUDGET
      invariant |lengths| == i + 1 && Covered(|body|, reservation.Held())
      invariant Traced(lengths, chunks)
    {
      ConcatStep(chunks, i);
      if |chunks[i]| > MAX_METADATA_BODY_LEN - |body| {
        return Err(InvalidData), lengths;
      }
      ok := Claim(reservation, |body| + |chunks[i]|, others, i + 1, most);
      if !ok {
        return Err(WouldBlock), lengths;
      }
      body := body + chunks[i];
      TraceGrows(lengths, chunks, |body|, reservation.Held());
      lengths := lengths + [(|body|, reservation.Held())];
    }
    assert chunks[..|chunks|] == chunks;
    r := if complete then Ok(body) else Err(Upstream);
  }

  lemma TraceGrows(lengths: seq<(nat, nat)>, chunks: seq<Bytes>, len: nat, held: nat)
    requires Traced(lengths, chunks) && 0 < |lengths| <= |chunks| && Covered(len, held)
    requires len == |StoredEntries.Concat(chunks[..|lengths|])|
    ensures Traced(lengths + [(len, held)], chunks)
  {
  }

  lemma ConcatStep(chunks: seq<Bytes>, i: nat)
    requires i < |chunks|
    ensures StoredEntries.Concat(chunks[..i + 1]) == StoredEntries.Concat(chunks[..i]) + chunks[i]
    ensures |StoredEntries.Concat(chunks[..i])| + |chunks[i]| <= |StoredEntries.Concat(chunks)|
  {
    assert chunks[..i + 1][..i] == chunks[..i];
    ConcatGrows(chunks, i + 1);
  }

  lemma {:induction false} ConcatGrows(chunks: seq<Bytes>, i: nat)
    requires i <= |chunks|
    ensures |StoredEntries.Concat(chunks[..i])| <= |StoredEntries.Concat(chunks)|
    decreases |chunks|
  {
    if i < |chunks| {
      var n := |chunks| - 1;
      assert chunks[..n][..i] == chunks[..i];
      ConcatGrows(chunks[..n], i);
    } else {
      assert chunks[..i] == chunks;
    }
  }
}
