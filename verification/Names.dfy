/** File names of the cache directory: src/cache.rs:308-324, 343-360, 496-532, 559-641. */
module Names {
  import opened Basics
  import Decimal

  const KEY_LEN: nat := 64
  const SHARD_LEN: nat := 2
  const PART := ".part"
  const PART_DOT := ".part."
  const MARKER_TEXT := "v1\n"

  /*** The grammar ***/

  predicate IsLowerHex(c: char) {
    '0' <= c <= '9' || 'a' <= c <= 'f'
  }

  /** `valid_hex`. */
  predicate ValidHex(value: string, len: nat) {
    |value| == len && forall i :: 0 <= i < |value| ==> IsLowerHex(value[i])
  }

  /** `valid_key`. */
  predicate ValidKey(key: string, shard: string) {
    ValidHex(key, KEY_LEN) && shard <= key
  }

  function StripSuffix(name: string, suffix: string): (r: Option<string>)
    ensures r.Some? ==> name == r.value + suffix
    ensures r.None? ==> !(exists stem :: name == stem + suffix)
  {
    if |name| >= |suffix| && name[|name| - |suffix|..] == suffix then Some(name[..|name| - |suffix|]) else None
  }

  /** `legacy_key`. */
  function LegacyKey(name: string, shard: string): Option<string> {
    var json := StripSuffix(name, ".json");
    var key := if json.Some? then json else StripSuffix(name, ".body");
    if key.Some? && ValidKey(key.value, shard) then key else None
  }

  /** The last occurrence of `sep` that starts at or before `i`. */
  function LastAt(s: string, sep: string, i: nat): (r: Option<nat>)
    ensures r.Some? ==> r.value <= i && OccursAt(s, sep, r.value)
    ensures forall j :: (if r.Some? then r.value else -1) < j <= i ==> !OccursAt(s, sep, j)
  {
    if OccursAt(s, sep, i) then Some(i) else if i == 0 then None else LastAt(s, sep, i - 1)
  }

  /** `rsplit_once`. */
  function RSplitOnce(s: string, sep: string): (r: Option<(string, string)>)
    ensures r.Some? ==> s == r.value.0 + sep + r.value.1
  {
    var at := LastAt(s, sep, |s|);
    if at.None? then None else Some((s[..at.value], s[at.value + |sep|..]))
  }

  /** `temp_key`. */
  function TempKey(name: string, shard: string): Option<string> {
    var stem := StripSuffix(name, PART);
    if stem.None? then None
    else if ValidKey(stem.value, shard) then stem
    else
      var split := RSplitOnce(stem.value, PART_DOT);
      if split.Some? && ValidKey(split.value.0, shard) && split.value.1 != [] && Decimal.AllDigits(split.value.1)
      then Some(split.value.0) else None
  }

  /*** The names the store writes ***/

  function Shard(key: string): string
    requires |key| >= SHARD_LEN
  {
    key[..SHARD_LEN]
  }

  /** The artifact temp file of `paths_for`. */
  function PartName(key: string): string {
    key + PART
  }

  /** `unique_temp_path`: the metadata temp file for one value of the counter. */
  function UniqueTempName(key: string, counter: nat): string {
    PartName(key) + "." + Decimal.Show(counter) + PART
  }

  /*** Round trips ***/

  /** Only digits follow, so the separator after the key is the last one. */
  lemma LastSeparator(key: string, digits: string)
    requires ValidHex(key, KEY_LEN) && digits != [] && Decimal.AllDigits(digits)
    ensures LastAt(key + PART_DOT + digits, PART_DOT, |key + PART_DOT + digits|) == Some(KEY_LEN)
  {
    var s := key + PART_DOT + digits;
    assert OccursAt(s, PART_DOT, KEY_LEN);
    forall j | KEY_LEN < j <= |s| ensures !OccursAt(s, PART_DOT, j) {
      if j + 6 <= |s| {
        assert s[j..j + 6][0] == s[j] && s[j..j + 6][1] == s[j + 1];
        assert j >= KEY_LEN + 6 ==> s[j] == digits[j - KEY_LEN - 6];
        assert j >= KEY_LEN + 5 ==> s[j + 1] == digits[j + 1 - KEY_LEN - 6];
        assert KEY_LEN < j < KEY_LEN + 5 ==> s[j] == PART_DOT[j - KEY_LEN] && s[j] != '.';
      }
    }
  }

  lemma SplitsBack(key: string, digits: string)
    requires ValidHex(key, KEY_LEN) && digits != [] && Decimal.AllDigits(digits)
    ensures RSplitOnce(key + PART_DOT + digits, PART_DOT) == Some((key, digits))
  {
    LastSeparator(key, digits);
  }

  /** A numbered temp name, whatever the digits, belongs to its key. */
  lemma NumberedParses(key: string, shard: string, digits: string)
    requires ValidKey(key, shard) && digits != [] && Decimal.AllDigits(digits)
    ensures TempKey(key + PART_DOT + digits + PART, shard) == Some(key)
  {
    var stem := key + PART_DOT + digits;
    assert (stem + PART)[..|stem|] == stem && (stem + PART)[|stem|..] == PART;
    SplitsBack(key, digits);
  }

  lemma UniqueTempShape(key: string, counter: nat)
    ensures UniqueTempName(key, counter) == key + PART_DOT + Decimal.Show(counter) + PART
  {
  }

  /** Every name the store writes parses back to its key, in its own class. */
  lemma NamesParseBack(key: string, counter: nat)
    requires ValidHex(key, KEY_LEN)
    ensures ValidKey(key, Shard(key))
    ensures TempKey(PartName(key), Shard(key)) == Some(key)
    ensures TempKey(UniqueTempName(key, counter), Shard(key)) == Some(key)
    ensures LegacyKey(key + ".json", Shard(key)) == LegacyKey(key + ".body", Shard(key)) == Some(key)
  {
    assert PartName(key)[..KEY_LEN] == key && PartName(key)[KEY_LEN..] == PART;
    UniqueTempShape(key, counter);
    NumberedParses(key, Shard(key), Decimal.Show(counter));
    LegacyParses(key, Shard(key));
  }

  lemma LegacyParses(key: string, shard: string)
    requires ValidKey(key, shard)
    ensures LegacyKey(key + ".json", shard) == LegacyKey(key + ".body", shard) == Some(key)
  {
  }

  /** The temp class is exactly the two temp forms. */
  lemma TempClass(name: string, shard: string, key: string)
    ensures TempKey(name, shard) == Some(key) <==>
      && ValidKey(key, shard)
      && (|| name == PartName(key)
          || exists digits :: digits != [] && Decimal.AllDigits(digits) && name == key + PART_DOT + digits + PART)
  {
    if TempKey(name, shard) == Some(key) && name != PartName(key) {
      var stem := StripSuffix(name, PART).value;
      var digits := RSplitOnce(stem, PART_DOT).value.1;
      assert name == key + PART_DOT + digits + PART;
    }
    if ValidKey(key, shard) && name == PartName(key) {
      assert name[..KEY_LEN] == key && name[KEY_LEN..] == PART;
    }
    if ValidKey(key, shard) {
      forall digits | digits != [] && Decimal.AllDigits(digits) && name == key + PART_DOT + digits + PART
        ensures TempKey(name, shard) == Some(key)
      {
        NumberedParses(key, shard, digits);
      }
    }
  }

  /** The legacy class is exactly the two legacy forms. */
  lemma LegacyClass(name: string, shard: string, key: string)
    ensures LegacyKey(name, shard) == Some(key) <==> ValidKey(key, shard) && (name == key + ".json" || name == key + ".body")
  {
  }

  /** No name is in two classes, whatever the shards. */
  lemma ClassesAreDisjoint(name: string, a: string, b: string)
    ensures !(ValidKey(name, a) && TempKey(name, b).Some?)
    ensures !(ValidKey(name, a) && LegacyKey(name, b).Some?)
    ensures !(TempKey(name, a).Some? && LegacyKey(name, b).Some?)
  {
  }

  /** Different keys or counters give different temp names, none of them an artifact's. */
  lemma TempNamesDistinct(k1: string, c1: nat, k2: string, c2: nat)
    requires ValidHex(k1, KEY_LEN) && ValidHex(k2, KEY_LEN)
    ensures UniqueTempName(k1, c1) == UniqueTempName(k2, c2) ==> k1 == k2 && c1 == c2
    ensures UniqueTempName(k1, c1) != PartName(k2)
    ensures PartName(k1) == PartName(k2) ==> k1 == k2
  {
    UniqueTempShape(k1, c1);
    UniqueTempShape(k2, c2);
    Prefixes(k1, Decimal.Show(c1));
    Prefixes(k2, Decimal.Show(c2));
    Decimal.ValueOfShow(c1);
    Decimal.ValueOfShow(c2);
    assert PartName(k1)[..KEY_LEN] == k1 && PartName(k2)[..KEY_LEN] == k2;
  }

  lemma Prefixes(key: string, digits: string)
    requires |key| == KEY_LEN
    ensures
      var name := key + PART_DOT + digits + PART;
      |name| == KEY_LEN + 6 + |digits| + 5 && name[..KEY_LEN] == key && name[KEY_LEN + 6..|name| - 5] == digits
  {
  }

  /*** The directory ***/

  /** A directory entry; a name that is not UTF-8 is no string. */
  datatype Item = Item(name: Option<string>, isFile: bool)

  datatype Folder = Folder(name: Option<string>, isDir: bool, items: seq<Item>)

  predicate IsShard(folder: Folder) {
    folder.isDir && folder.name.Some? && ValidHex(folder.name.value, SHARD_LEN)
  }

  predicate Completed(item: Item, shard: string) {
    item.isFile && item.name.Some? && ValidKey(item.name.value, shard)
  }

  /** What start-up deletes. */
  predicate Stale(item: Item, shard: string) {
    item.isFile && item.name.Some?
    && (LegacyKey(item.name.value, shard).Some? || TempKey(item.name.value, shard).Some?)
  }

  predicate Owned(item: Item, shard: string) {
    Completed(item, shard) || Stale(item, shard)
  }

  ghost predicate OwnedFolder(folder: Folder) {
    IsShard(folder) && forall i :: 0 <= i < |folder.items| ==> Owned(folder.items[i], folder.name.value)
  }

  /** `claim_cache_directory`; `marker` is the text of the marker file, if there is one. */
  method ClaimDirectory(marker: Option<string>, folders: seq<Folder>) returns (ok: bool)
    ensures ok <==>
      if marker.Some? then marker.value == MARKER_TEXT
      else forall i :: 0 <= i < |folders| ==> OwnedFolder(folders[i])
  {
    if marker.Some? {
      return marker.value == MARKER_TEXT;
    }
    for i := 0 to |folders|
      invariant forall j :: 0 <= j < i ==> OwnedFolder(folders[j])
    {
      var folder := folders[i];
      if !IsShard(folder) {
        return false;
      }
      var shard := folder.name.value;
      for k := 0 to |folder.items|
        invariant forall j :: 0 <= j < k ==> Owned(folder.items[j], shard)
      {
        var item := folder.items[k];
        if !item.isFile {
          return false;
        }
        if item.name.None? {
          return false;
        }
        var name := item.name.value;
        if !ValidKey(name, shard) && LegacyKey(name, shard).None? && TempKey(name, shard).None? {
          return false;
        }
      }
    }
    return true;
  }

  /** A file this store, or the version before it, leaves in a shard. */
  ghost predicate Written(item: Item, shard: string) {
    item.isFile && item.name.Some? && exists key :: WrittenFor(item.name.value, key, shard)
  }

  ghost predicate WrittenFor(name: string, key: string, shard: string) {
    && ValidKey(key, shard)
    && (name == key || name == PartName(key) || name == key + ".json" || name == key + ".body"
        || exists counter :: name == UniqueTempName(key, counter))
  }

  lemma WrittenIsOwned(item: Item, shard: string)
    requires Written(item, shard)
    ensures Owned(item, shard)
  {
    var key :| WrittenFor(item.name.value, key, shard);
    var name := item.name.value;
    if name == PartName(key) {
      TempClass(name, shard, key);
    }
    if name == key + ".json" || name == key + ".body" {
      LegacyParses(key, shard);
    }
    if counter :| name == UniqueTempName(key, counter) {
      UniqueTempShape(key, counter);
      NumberedParses(key, shard, Decimal.Show(counter));
    }
  }

  ghost predicate WrittenFolder(folder: Folder) {
    IsShard(folder) && forall i :: 0 <= i < |folder.items| ==> Written(folder.items[i], folder.name.value)
  }

  /** Any layout the store can leave behind is accepted when the marker is missing. */
  lemma LeftoversAreClaimed(folders: seq<Folder>)
    requires forall i :: 0 <= i < |folders| ==> WrittenFolder(folders[i])
    ensures forall i :: 0 <= i < |folders| ==> OwnedFolder(folders[i])
  {
    forall i | 0 <= i < |folders| ensures OwnedFolder(folders[i]) {
      assert WrittenFolder(folders[i]);
      forall k | 0 <= k < |folders[i].items| ensures Owned(folders[i].items[k], folders[i].name.value) {
        WrittenIsOwned(folders[i].items[k], folders[i].name.value);
      }
    }
  }

  /** What start-up keeps of one shard; `stuck` are the files that cannot be removed. */
  function Cleaned(items: seq<Item>, shard: string, stuck: set<Item>): (r: seq<Item>)
    ensures forall item :: item in r <==> item in items && (!Stale(item, shard) || item in stuck)
  {
    if items == [] then []
    else
      var last := items[|items| - 1];
      Cleaned(items[..|items| - 1], shard, stuck) + (if Stale(last, shard) && last !in stuck then [] else [last])
  }

  /** The inner loop of `cleanup_stale_and_legacy`. */
  method CleanShard(items: seq<Item>, shard: string, stuck: set<Item>) returns (kept: seq<Item>)
    ensures kept == Cleaned(items, shard, stuck)
  {
    kept := [];
    for i := 0 to |items|
      invariant kept == Cleaned(items[..i], shard, stuck)
    {
      var item := items[i];
      assert items[..i + 1][..i] == items[..i];
      if !item.isFile || item.name.None? {
        kept := kept + [item];
        continue;
      }
      var name := item.name.value;
      if LegacyKey(name, shard).Some? || TempKey(name, shard).Some? {
        if item in stuck {
          kept := kept + [item];
        }
      } else {
        kept := kept + [item];
      }
    }
    assert items[..|items|] == items;
  }

  /** The names `completed_entries_at` lists for one shard, which are all that eviction removes. */
  method CompletedNames(items: seq<Item>, shard: string) returns (names: seq<string>)
    ensures forall name :: name in names <==> Item(Some(name), true) in items && ValidKey(name, shard)
  {
    names := [];
    for i := 0 to |items|
      invariant forall name :: name in names <==> Item(Some(name), true) in items[..i] && ValidKey(name, shard)
    {
      assert items[..i + 1] == items[..i] + [items[i]];
      var item := items[i];
      if !item.isFile || item.name.None? {
        continue;
      }
      if ValidKey(item.name.value, shard) {
        names := names + [item.name.value];
      }
    }
    assert items[..|items|] == items;
  }

  /** Start-up never deletes a completed entry, and leaves no deletable temp or legacy file. */
  lemma CleanupKeepsCompleted(items: seq<Item>, shard: string, stuck: set<Item>, item: Item)
    requires item in items
    ensures Completed(item, shard) ==> item in Cleaned(items, shard, stuck)
    ensures Written(item, shard) && !Completed(item, shard) && item !in stuck ==> item !in Cleaned(items, shard, stuck)
    ensures !Owned(item, shard) ==> item in Cleaned(items, shard, stuck)
  {
    if item.name.Some? {
      ClassesAreDisjoint(item.name.value, shard, shard);
    }
    if Written(item, shard) {
      WrittenIsOwned(item, shard);
    }
  }

  /** Eviction, which removes only valid keys, never removes a temp file of any key or the other shard's entries. */
  lemma EvictionSparesTemps(name: string, shard: string, key: string, counter: nat)
    requires ValidKey(name, shard) && ValidHex(key, KEY_LEN)
    ensures name != PartName(key) && name != UniqueTempName(key, counter)
    ensures |shard| == SHARD_LEN ==> shard == Shard(name)
  {
  }

  /*** Keys ***/

  /** `hex::encode`. */
  function HexEncode(bytes: Bytes): (s: string)
    ensures |s| == 2 * |bytes|
  {
    if bytes == [] then []
    else [HexDigit(bytes[0] / 16), HexDigit(bytes[0] % 16)] + HexEncode(bytes[1..])
  }

  function HexDigit(n: nat): (c: char)
    requires n < 16
    ensures IsLowerHex(c) && HexValue(c) == n
  {
    "0123456789abcdef"[n]
  }

  function HexValue(c: char): (n: nat)
    requires IsLowerHex(c)
    ensures n < 16
  {
    if '0' <= c <= '9' then c as int - '0' as int else c as int - 'a' as int + 10
  }

  lemma DigitExact(c: char)
    requires IsLowerHex(c)
    ensures HexDigit(HexValue(c)) == c
  {
  }

  lemma {:induction false} EncodedIsHex(bytes: Bytes)
    ensures ValidHex(HexEncode(bytes), 2 * |bytes|)
  {
    if bytes != [] {
      EncodedIsHex(bytes[1..]);
    }
  }

  lemma {:induction false} HexIsEncoded(s: string, n: nat) returns (bytes: Bytes)
    requires ValidHex(s, 2 * n)
    ensures |bytes| == n && HexEncode(bytes) == s
  {
    if n == 0 {
      bytes := [];
    } else {
      var rest := HexIsEncoded(s[2..], n - 1);
      var b: Byte := HexValue(s[0]) * 16 + HexValue(s[1]);
      bytes := [b] + rest;
      DigitExact(s[0]);
      DigitExact(s[1]);
      assert bytes[1..] == rest;
      assert b / 16 == HexValue(s[0]) && b % 16 == HexValue(s[1]);
      assert s == [s[0], s[1]] + s[2..];
    }
  }

  /** Valid keys are exactly the encodings of thirty-two byte hashes. */
  lemma KeysAreHashes(s: string)
    ensures ValidHex(s, 64) <==> exists bytes: Bytes :: |bytes| == 32 && HexEncode(bytes) == s
  {
    if ValidHex(s, 64) {
      var bytes := HexIsEncoded(s, 32);
    }
    forall bytes: Bytes | |bytes| == 32 && HexEncode(bytes) == s ensures ValidHex(s, 64) {
      EncodedIsHex(bytes);
    }
  }
}
