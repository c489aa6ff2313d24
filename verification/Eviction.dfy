/** One eviction scan with the pins fixed: src/cache.rs:649-676. */
module Eviction {
  import opened Basics

  /** Sixty-four hexadecimal digits. */
  type Key = string

  /** A row of `completed_entries_at`. */
  datatype Entry = Entry(key: Key, modified: int, size: nat)

  /** What `remove_file` reports: removed, already gone, or any other error. */
  datatype Removal = Removed | NotFound | Refused

  function Total(es: seq<Entry>): nat {
    if es == [] then 0 else es[0].size + Total(es[1..])
  }

  lemma {:induction false} TotalAppend(a: seq<Entry>, b: seq<Entry>)
    ensures Total(a + b) == Total(a) + Total(b)
    ensures |a| == 1 ==> Total(a) == a[0].size
  {
    if a == [] {
      assert a + b == b;
    } else {
      assert (a + b)[1..] == a[1..] + b;
      TotalAppend(a[1..], b);
    }
  }

  /*** `sort_by_key` on the modification time ***/

  ghost predicate Sorted(es: seq<Entry>) {
    forall i, j :: 0 <= i < j < |es| ==> es[i].modified <= es[j].modified
  }

  /** Before the first entry that is newer or as new, so that equal times keep their order. */
  function Insert(e: Entry, es: seq<Entry>): (r: seq<Entry>)
    ensures multiset(r) == multiset{e} + multiset(es)
    ensures |r| == |es| + 1
  {
    if es == [] || e.modified <= es[0].modified then [e] + es
    else
      assert es == [es[0]] + es[1..];
      [es[0]] + Insert(e, es[1..])
  }

  function SortByModified(es: seq<Entry>): (r: seq<Entry>)
    ensures multiset(r) == multiset(es)
    ensures |r| == |es|
  {
    if es == [] then []
    else
      assert es == [es[0]] + es[1..];
      Insert(es[0], SortByModified(es[1..]))
  }

  lemma {:induction false} InsertSorts(e: Entry, es: seq<Entry>)
    requires Sorted(es)
    ensures Sorted(Insert(e, es))
  {
    if es != [] && e.modified > es[0].modified {
      InsertSorts(e, es[1..]);
      var r := Insert(e, es[1..]);
      forall j | 0 <= j < |r| ensures es[0].modified <= r[j].modified {
        assert r[j] in multiset(r);
        assert r[j] == e || r[j] in es[1..];
      }
    }
  }

  lemma {:induction false} SortSorts(es: seq<Entry>)
    ensures Sorted(SortByModified(es))
  {
    if es != [] {
      SortSorts(es[1..]);
      InsertSorts(es[0], SortByModified(es[1..]));
    }
  }

  /** The entries with one modification time. */
  function At(es: seq<Entry>, t: int): seq<Entry> {
    if es == [] then []
    else if es[0].modified == t then [es[0]] + At(es[1..], t)
    else At(es[1..], t)
  }

  lemma {:induction false} InsertIsStable(e: Entry, es: seq<Entry>, t: int)
    ensures At(Insert(e, es), t) == At([e] + es, t)
  {
    assert ([e] + es)[1..] == es;
    if es != [] && e.modified > es[0].modified {
      InsertIsStable(e, es[1..], t);
      assert ([e] + es[1..])[1..] == es[1..];
      assert Insert(e, es)[1..] == Insert(e, es[1..]);
    }
  }

  lemma {:induction false} AtHead(e: Entry, a: seq<Entry>, b: seq<Entry>, t: int)
    requires At(a, t) == At(b, t)
    ensures At([e] + a, t) == At([e] + b, t)
  {
  }

  /** Entries with equal times keep the order of the listing. */
  lemma {:induction false} SortIsStable(es: seq<Entry>, t: int)
    ensures At(SortByModified(es), t) == At(es, t)
  {
    if es != [] {
      SortIsStable(es[1..], t);
      InsertIsStable(es[0], SortByModified(es[1..]), t);
      AtHead(es[0], SortByModified(es[1..]), es[1..], t);
      assert [es[0]] + es[1..] == es;
    }
  }

  /*** The scan ***/

  /** `is_pinned` is false and `remove_file` does not refuse. */
  predicate Evictable(e: Entry, pinned: set<Key>, removal: Key -> Removal) {
    e.key !in pinned && removal(e.key) != Refused
  }

  function Candidates(es: seq<Entry>, pinned: set<Key>, removal: Key -> Removal): (r: seq<Entry>)
    ensures forall e :: e in r ==> e in es && Evictable(e, pinned, removal)
  {
    if es == [] then []
    else (if Evictable(es[0], pinned, removal) then [es[0]] else []) + Candidates(es[1..], pinned, removal)
  }

  lemma {:induction false} CandidatesAppend(a: seq<Entry>, b: seq<Entry>, pinned: set<Key>, removal: Key -> Removal)
    ensures Candidates(a + b, pinned, removal) == Candidates(a, pinned, removal) + Candidates(b, pinned, removal)
  {
    if a == [] {
      assert a + b == b;
    } else {
      assert (a + b)[1..] == a[1..] + b;
      CandidatesAppend(a[1..], b, pinned, removal);
    }
  }

  /** The bytes left after evicting the first `n` candidates. */
  ghost function After(listed: seq<Entry>, gone: seq<Entry>, n: nat): int
    requires n <= |gone|
  {
    Total(listed) - Total(gone[..n])
  }

  /** No shorter run of evictions reaches the bound. */
  ghost predicate Needed(listed: seq<Entry>, gone: seq<Entry>, maxSize: nat) {
    forall n :: 0 <= n < |gone| ==> After(listed, gone, n) > maxSize
  }

  lemma NeededStep(listed: seq<Entry>, gone: seq<Entry>, e: Entry, maxSize: nat)
    requires Needed(listed, gone, maxSize) && Total(listed) - Total(gone) > maxSize
    ensures Needed(listed, gone + [e], maxSize)
  {
    forall n | 0 <= n < |gone + [e]| ensures After(listed, gone + [e], n) > maxSize {
      assert (gone + [e])[..n] == gone[..n];
      if n == |gone| {
        assert gone[..n] == gone;
      } else {
        assert After(listed, gone, n) > maxSize;
      }
    }
  }

  lemma SplitAt(es: seq<Entry>, i: nat)
    requires i < |es|
    ensures es[..i + 1] == es[..i] + [es[i]] && es[i..] == [es[i]] + es[i + 1..]
    ensures Total(es[i..]) == es[i].size + Total(es[i + 1..])
  {
  }

  lemma CandidatesStep(es: seq<Entry>, i: nat, pinned: set<Key>, removal: Key -> Removal)
    requires i < |es|
    ensures Candidates(es[..i + 1], pinned, removal)
         == Candidates(es[..i], pinned, removal) + if Evictable(es[i], pinned, removal) then [es[i]] else []
  {
    SplitAt(es, i);
    CandidatesAppend(es[..i], [es[i]], pinned, removal);
    assert [es[i]][1..] == [];
  }

  lemma CandidatesPrefix(es: seq<Entry>, i: nat, pinned: set<Key>, removal: Key -> Removal)
    requires i <= |es|
    ensures Candidates(es[..i], pinned, removal) <= Candidates(es, pinned, removal)
  {
    assert es == es[..i] + es[i..];
    CandidatesAppend(es[..i], es[i..], pinned, removal);
  }

  /**
   * `evict_files_to_bound`. `evicted` are the entries whose files are gone afterwards, `kept` the
   * others; `total` is the running total, so the last clause on it says that the saturating
   * subtraction never saturates.
   */
  method EvictToBound(listed: seq<Entry>, maxSize: nat, pinned: set<Key>, removal: Key -> Removal)
    returns (evicted: seq<Entry>, total: nat, ghost kept: seq<Entry>)
    ensures multiset(evicted) + multiset(kept) == multiset(listed)
    ensures total == Total(kept) == Total(listed) - Total(evicted)
    ensures evicted <= Candidates(SortByModified(listed), pinned, removal)
    ensures Needed(listed, evicted, maxSize)
    ensures total <= maxSize || forall e :: e in kept ==> e.key in pinned || removal(e.key) == Refused
    ensures forall e :: e in evicted ==> e.key !in pinned && removal(e.key) != Refused
    ensures Sorted(evicted)
    ensures forall e, k :: e in evicted && k in kept && Evictable(k, pinned, removal) ==> e.modified <= k.modified
  {
    evicted, kept, total := [], listed, Total(listed);
    if total <= maxSize {
      return;
    }
    var entries := SortByModified(listed);
    SortSorts(listed);
    SumIsOrderFree(entries, listed);
    ghost var done;
    evicted, total, done, kept := RemoveOldest(entries, maxSize, pinned, removal);
    CandidatesPrefix(entries, done, pinned, removal);
    OldestFirst(entries, done, evicted, kept, pinned, removal);
    ScanEnds(entries, done, evicted, kept, pinned, removal);
    kept := kept + entries[done..];
    SameTotal(listed, entries, evicted, maxSize);
    EvictedInOrder(entries, done, evicted, pinned, removal);
  }

  lemma {:induction false} CandidatesSorted(es: seq<Entry>, pinned: set<Key>, removal: Key -> Removal)
    requires Sorted(es)
    ensures Sorted(Candidates(es, pinned, removal))
  {
    if es != [] {
      CandidatesSorted(es[1..], pinned, removal);
      var rest := Candidates(es[1..], pinned, removal);
      forall j | 0 <= j < |rest| ensures es[0].modified <= rest[j].modified {
        assert rest[j] in es[1..];
      }
    }
  }

  /** What a scan takes is in modification order, and it may take each of them. */
  lemma EvictedInOrder(es: seq<Entry>, i: nat, gone: seq<Entry>, pinned: set<Key>, removal: Key -> Removal)
    requires Sorted(es) && i <= |es| && gone == Candidates(es[..i], pinned, removal)
    ensures Sorted(gone)
    ensures forall e :: e in gone ==> e.key !in pinned && removal(e.key) != Refused
  {
    CandidatesSorted(es[..i], pinned, removal);
  }

  lemma SameTotal(listed: seq<Entry>, entries: seq<Entry>, gone: seq<Entry>, maxSize: nat)
    requires Total(entries) == Total(listed) && Needed(entries, gone, maxSize)
    ensures Needed(listed, gone, maxSize)
  {
    forall n | 0 <= n < |gone| ensures After(listed, gone, n) > maxSize {
      assert After(entries, gone, n) > maxSize;
    }
  }

  /** The loop over the sorted entries; it stops after `done` of them. */
  method RemoveOldest(entries: seq<Entry>, maxSize: nat, pinned: set<Key>, removal: Key -> Removal)
    returns (evicted: seq<Entry>, total: nat, ghost done: nat, ghost kept: seq<Entry>)
    ensures done <= |entries| && Scanned(entries, done, evicted, kept, pinned, removal)
    ensures total == Total(kept) + Total(entries[done..]) == Total(entries) - Total(evicted)
    ensures total <= maxSize || done == |entries|
    ensures Needed(entries, evicted, maxSize)
  {
    evicted, kept, total := [], [], Total(entries);
    var i := 0;
    assert entries[0..] == entries;
    while i < |entries| && total > maxSize
      invariant i <= |entries|
      invariant Scanned(entries, i, evicted, kept, pinned, removal)
      invariant total == Total(kept) + Total(entries[i..]) == Total(entries) - Total(evicted)
      invariant Needed(entries, evicted, maxSize)
    {
      var entry := entries[i];
      SplitAt(entries, i);
      if entry.key in pinned || removal(entry.key) == Refused {
        KeepStep(entries, i, evicted, kept, pinned, removal);
        kept := kept + [entry];
      } else {
        TakeStep(entries, i, evicted, kept, pinned, removal);
        NeededStep(entries, evicted, entry, maxSize);
        evicted := evicted + [entry];
        total := SaturatingSub(total, entry.size);
      }
      i := i + 1;
    }
    done := i;
  }

  /** The first `i` entries are dealt with: candidates evicted, the others kept. */
  ghost predicate Scanned(es: seq<Entry>, i: nat, gone: seq<Entry>, kept: seq<Entry>, pinned: set<Key>, removal: Key -> Removal)
    requires i <= |es|
  {
    && gone == Candidates(es[..i], pinned, removal)
    && multiset(gone) + multiset(kept) == multiset(es[..i])
    && forall k :: k in kept ==> !Evictable(k, pinned, removal)
  }

  lemma KeepStep(es: seq<Entry>, i: nat, gone: seq<Entry>, kept: seq<Entry>, pinned: set<Key>, removal: Key -> Removal)
    requires i < |es| && Scanned(es, i, gone, kept, pinned, removal) && !Evictable(es[i], pinned, removal)
    ensures Scanned(es, i + 1, gone, kept + [es[i]], pinned, removal)
    ensures Total(kept + [es[i]]) == Total(kept) + es[i].size
  {
    SplitAt(es, i);
    CandidatesStep(es, i, pinned, removal);
    TotalAppend(kept, [es[i]]);
  }

  lemma TakeStep(es: seq<Entry>, i: nat, gone: seq<Entry>, kept: seq<Entry>, pinned: set<Key>, removal: Key -> Removal)
    requires i < |es| && Scanned(es, i, gone, kept, pinned, removal) && Evictable(es[i], pinned, removal)
    ensures Scanned(es, i + 1, gone + [es[i]], kept, pinned, removal)
    ensures Total(gone + [es[i]]) == Total(gone) + es[i].size
  {
    SplitAt(es, i);
    CandidatesStep(es, i, pinned, removal);
    TotalAppend(gone, [es[i]]);
  }

  lemma ScanEnds(es: seq<Entry>, i: nat, gone: seq<Entry>, kept: seq<Entry>, pinned: set<Key>, removal: Key -> Removal)
    requires i <= |es| && Scanned(es, i, gone, kept, pinned, removal)
    ensures multiset(gone) + multiset(kept + es[i..]) == multiset(es)
    ensures Total(kept + es[i..]) == Total(kept) + Total(es[i..])
    ensures i == |es| ==> kept + es[i..] == kept
  {
    assert es == es[..i] + es[i..];
    TotalAppend(kept, es[i..]);
  }

  /** What a scan takes is no newer than what it leaves untouched. */
  lemma OldestFirst(es: seq<Entry>, i: nat, gone: seq<Entry>, kept: seq<Entry>,
                       pinned: set<Key>, removal: Key -> Removal)
    requires Sorted(es) && i <= |es| && gone == Candidates(es[..i], pinned, removal)
    requires forall k :: k in kept ==> !Evictable(k, pinned, removal)
    ensures forall e, k :: e in gone && k in kept + es[i..] && Evictable(k, pinned, removal) ==> e.modified <= k.modified
  {
  }

  lemma {:induction false} TotalWithout(es: seq<Entry>, i: nat)
    requires i < |es|
    ensures Total(es) == es[i].size + Total(es[..i] + es[i + 1..])
    ensures multiset(es[..i] + es[i + 1..]) == multiset(es) - multiset{es[i]}
  {
    SplitAt(es, i);
    assert es == es[..i] + es[i..];
    TotalAppend(es[..i], es[i..]);
    TotalAppend(es[..i], es[i + 1..]);
    assert es == es[..i] + ([es[i]] + es[i + 1..]);
  }

  lemma {:induction false} SumIsOrderFree(a: seq<Entry>, b: seq<Entry>)
    requires multiset(a) == multiset(b)
    ensures Total(a) == Total(b)
  {
    if a == [] {
      assert |multiset(b)| == |b|;
    } else {
      assert a[0] in multiset(b);
      var i :| 0 <= i < |b| && b[i] == a[0];
      TotalWithout(b, i);
      TailKeeps(a);
      SumIsOrderFree(a[1..], b[..i] + b[i + 1..]);
    }
  }

  /** No two different entries share a modification time. */
  ghost predicate DistinctTimes(es: seq<Entry>) {
    forall x, y :: x in es && y in es && x.modified == y.modified ==> x == y
  }

  lemma HeadIsShared(a: seq<Entry>, b: seq<Entry>)
    requires Sorted(a) && Sorted(b) && multiset(a) == multiset(b) && a != []
    requires DistinctTimes(a)
    ensures b != [] && a[0] == b[0]
  {
    assert a[0] in multiset(b);
    var i :| 0 <= i < |b| && b[i] == a[0];
    assert b[0] in multiset(a);
    var j :| 0 <= j < |a| && a[j] == b[0];
  }

  /** With distinct times the order of the directory listing does not matter. */
  lemma {:induction false} SortedIsUnique(a: seq<Entry>, b: seq<Entry>)
    requires Sorted(a) && Sorted(b) && multiset(a) == multiset(b)
    requires DistinctTimes(a)
    ensures a == b
  {
    if a == [] {
      assert |multiset(b)| == |b|;
    } else {
      HeadIsShared(a, b);
      TailKeeps(a);
      TailKeeps(b);
      SortedIsUnique(a[1..], b[1..]);
      assert a == [a[0]] + a[1..] && b == [b[0]] + b[1..];
    }
  }

  lemma TailKeeps(es: seq<Entry>)
    requires es != []
    ensures multiset(es[1..]) == multiset(es) - multiset{es[0]}
    ensures Sorted(es) ==> Sorted(es[1..])
    ensures DistinctTimes(es) ==> DistinctTimes(es[1..])
  {
    assert es == [es[0]] + es[1..];
  }

  /** The candidates of a scan, and so what it evicts, do not depend on the listing order. */
  lemma ListingOrderIsIrrelevant(a: seq<Entry>, b: seq<Entry>)
    requires multiset(a) == multiset(b) && DistinctTimes(a)
    ensures SortByModified(a) == SortByModified(b)
  {
    forall x | x in SortByModified(a) ensures x in a {
      assert x in multiset(SortByModified(a));
    }
    SortSorts(a);
    SortSorts(b);
    SortedIsUnique(SortByModified(a), SortByModified(b));
  }

  /** The contract of a scan leaves no freedom: two results that meet it evict the same entries. */
  lemma ScanIsDetermined(listed: seq<Entry>, candidates: seq<Entry>, a: seq<Entry>, b: seq<Entry>, maxSize: nat)
    requires a <= candidates && b <= candidates && |a| <= |b|
    requires Needed(listed, a, maxSize) && Needed(listed, b, maxSize)
    requires Total(listed) - Total(a) <= maxSize || a == candidates
    ensures a == b
  {
    assert b[..|a|] == a;
    assert |a| == |b| || After(listed, b, |a|) > maxSize;
  }
}
