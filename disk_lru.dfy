/**
 * `DiskLruCache`: a size-bounded disk cache of PNG files. It keeps an access-ordered index
 * from key to entry (file and size), a running `currentSize`, and an append-only journal of
 * `DIRTY k`, `CLEAN k size` and `REMOVE k` lines, which it replays when it is created.
 *
 * The cache directory is a map from file name to length. Writing a bitmap (compression and
 * the rename of the temporary file) and decoding a file are outcomes passed in. The journal
 * is the sequence of its lines.
 */
module DiskLru {
  import opened Wrappers
  import opened Numerics
  import opened Strings
  import opened AccessOrder
  import opened Graphics

  /** An entry of the index: the cache file (named by its key) and its recorded size. */
  datatype CacheEntry = CacheEntry(file: string, size: int)

  function EntrySize(e: CacheEntry): int { e.size }

  /** The cache as a value: index, running size, journal lines and the directory's files. */
  datatype DiskState = DiskState(
    index: LinkedMap<CacheEntry>,
    currentSize: int,
    journal: seq<string>,
    files: map<string, nat>)

  /** Every entry's file is `File(cacheDir, key)`. */
  ghost predicate WellFormed(s: DiskState) {
    && Valid(s.index)
    && forall k :: k in s.index.values ==> s.index.values[k].file == k
  }

  // ---------------------------------------------------------------- journal lines

  function DirtyLine(key: string): string { "DIRTY " + key }
  function CleanLine(key: string, size: int): string { "CLEAN " + key + " " + IntToDecimal(size) }
  function RemoveLine(key: string): string { "REMOVE " + key }

  function RemoveLines(keys: seq<string>): (lines: seq<string>)
    ensures |lines| == |keys|
  {
    if keys == [] then [] else [RemoveLine(keys[0])] + RemoveLines(keys[1..])
  }

  lemma RemoveLinesCons(k: string, keys: seq<string>)
    ensures RemoveLines([k] + keys) == [RemoveLine(k)] + RemoveLines(keys)
  {
    assert ([k] + keys)[1..] == keys;
  }

  /** What one journal line means to the replay. */
  datatype Record = DirtyRecord(key: string) | CleanRecord(key: string, size: int) | RemoveRecord(key: string) | Ignored

  /**
   * A line split on single spaces: the first word selects the record, a record with too
   * few words is skipped, extra words are ignored, and a size that is not a `Long` is 0.
   */
  function ParseLine(line: string): Record {
    var parts := Split(line, ' ');
    if parts[0] == "DIRTY" then
      if |parts| >= 2 then DirtyRecord(parts[1]) else Ignored
    else if parts[0] == "CLEAN" then
      if |parts| >= 3 then CleanRecord(parts[1], ParseLong(parts[2]).GetOr(0)) else Ignored
    else if parts[0] == "REMOVE" then
      if |parts| >= 2 then RemoveRecord(parts[1]) else Ignored
    else Ignored
  }

  lemma SplitWords(a: string, b: string)
    requires ' ' !in a && ' ' !in b
    ensures Split(a + " " + b, ' ') == [a, b]
  {
    SplitAfterPiece(a, ' ', b);
    SplitNoSeparator(b, ' ');
  }

  lemma SplitThreeWords(a: string, b: string, c: string)
    requires ' ' !in a && ' ' !in b && ' ' !in c
    ensures Split(a + " " + b + " " + c, ' ') == [a, b, c]
  {
    assert a + " " + b + " " + c == a + " " + (b + " " + c);
    SplitAfterPiece(a, ' ', b + " " + c);
    SplitWords(b, c);
  }

  /** Each line the cache writes reads back as the record it stands for, for keys without spaces. */
  lemma {:induction false} JournalLinesRoundTrip(key: string, size: int)
    requires ' ' !in key && IsLong(size)
    ensures ParseLine(DirtyLine(key)) == DirtyRecord(key)
    ensures ParseLine(CleanLine(key, size)) == CleanRecord(key, size)
    ensures ParseLine(RemoveLine(key)) == RemoveRecord(key)
  {
    assert DirtyLine(key) == "DIRTY" + " " + key;
    SplitWords("DIRTY", key);
    assert RemoveLine(key) == "REMOVE" + " " + key;
    SplitWords("REMOVE", key);
    assert CleanLine(key, size) == "CLEAN" + " " + key + " " + IntToDecimal(size);
    SplitThreeWords("CLEAN", key, IntToDecimal(size));
    ParseLongOfDecimal(size);
  }

  /** A `CLEAN` line whose size is not a number records size 0. */
  lemma {:induction false} UnparsableSizeIsZero(key: string, text: string)
    requires ' ' !in key && ' ' !in text && ParseLong(text) == None
    ensures ParseLine("CLEAN " + key + " " + text) == CleanRecord(key, 0)
  {
    assert "CLEAN " + key + " " + text == "CLEAN" + " " + key + " " + text;
    SplitThreeWords("CLEAN", key, text);
  }

  // ---------------------------------------------------------------- operations as values

  function KeySet(keys: seq<string>): set<string> {
    set k | k in keys
  }

  /**
   * `evictIfNeeded`: while `currentSize` exceeds the maximum and entries remain, the least
   * recently used entry loses its file, leaves the index, has its size subtracted and is
   * journalled as `REMOVE`.
   */
  function Evict(s: DiskState, max: int): (r: DiskState)
    requires WellFormed(s)
    ensures WellFormed(r)
    ensures r.currentSize <= max || r.index.order == []
  {
    var t := Trim(s.index, s.currentSize, max, EntrySize);
    TrimTakesPrefix(s.index, s.currentSize, max, EntrySize);
    DiskState(t.rest, t.total, s.journal + RemoveLines(t.evicted), s.files - KeySet(t.evicted))
  }

  /** One turn of the eviction loop. */
  function EvictEldest(s: DiskState): (r: DiskState)
    requires WellFormed(s) && s.index.order != []
    ensures WellFormed(r)
  {
    var k := s.index.order[0];
    var e := s.index.values[k];
    DiskState(RemoveEldest(s.index), s.currentSize - e.size, s.journal + [RemoveLine(k)], s.files - {e.file})
  }

  lemma EvictStep(s: DiskState, max: int)
    requires WellFormed(s) && s.index.order != [] && s.currentSize > max
    ensures Evict(s, max) == Evict(EvictEldest(s), max)
  {
    var k := s.index.order[0];
    var s' := EvictEldest(s);
    var t := Trim(s'.index, s'.currentSize, max, EntrySize);
    var t0 := Trim(s.index, s.currentSize, max, EntrySize);
    assert t0 == TrimResult(t.rest, t.total, [k] + t.evicted);
    var journal := s'.journal + RemoveLines(t.evicted);
    var files := s'.files - KeySet(t.evicted);
    RemoveLinesCons(k, t.evicted);
    assert s.journal + RemoveLines(t0.evicted) == journal;
    assert s.files - KeySet(t0.evicted) == files by {
      assert KeySet(t0.evicted) == {k} + KeySet(t.evicted);
    }
    assert Evict(s, max) == DiskState(t.rest, t.total, journal, files);
    assert Evict(s', max) == DiskState(t.rest, t.total, journal, files);
  }

  /** What writing the bitmap to `key.tmp` and renaming it to `key` came to. */
  datatype WriteOutcome = CompressFailed | RenameFailed | Renamed(length: nat)

  function TempFile(key: string): string { key + ".tmp" }

  /**
   * `put`: `DIRTY key` is journalled first. On success the renamed file's length becomes
   * the entry's size, the entry becomes the most recent, the size is added to
   * `currentSize` (an overwritten entry's old size is not subtracted), `CLEAN key size` is
   * journalled and eviction runs. On failure the temporary file is deleted and
   * `REMOVE key` is journalled; nothing else changes.
   */
  function PutSpec(s: DiskState, key: string, outcome: WriteOutcome, max: int): (r: DiskState)
    requires WellFormed(s)
    ensures WellFormed(r)
  {
    match outcome
    case Renamed(length) => Evict(Written(s, key, length), max)
    case _ => s.(journal := s.journal + [DirtyLine(key), RemoveLine(key)], files := s.files - {TempFile(key)})
  }

  /** The state a successful `put` hands to eviction. */
  function Written(s: DiskState, key: string, length: nat): (w: DiskState)
    requires WellFormed(s)
    ensures WellFormed(w)
  {
    DiskState(Put(s.index, key, CacheEntry(key, length)), s.currentSize + length,
              s.journal + [DirtyLine(key), CleanLine(key, length)], (s.files - {TempFile(key)})[key := length])
  }

  /**
   * `BitmapFactory.decodeFile` on the entry's file: the decode outcome passed in when the
   * file exists; a missing file decodes to null.
   */
  function DecodeFile(files: map<string, nat>, file: string, decode: DecodeOutcome): DecodeOutcome {
    if file in files then decode else DecodedNull
  }

  /** `safeDecode`: an exception deletes the file and journals `REMOVE` under the file's name. */
  function SafeDecodeSpec(s: DiskState, file: string, outcome: DecodeOutcome): (DiskState, Option<Bitmap>) {
    match outcome
    case DecodedTo(b) => (s, Some(b))
    case DecodedNull => (s, None)
    case DecodeThrew => (s.(files := s.files - {file}, journal := s.journal + [RemoveLine(file)]), None)
  }

  /** `get`: an absent key is a miss with no effect; a present key becomes the most recent and its file is decoded. */
  function GetSpec(s: DiskState, key: string, decode: DecodeOutcome): (r: (DiskState, Option<Bitmap>))
    requires WellFormed(s)
    ensures WellFormed(r.0)
  {
    if key !in s.index.values then (s, None)
    else
      var e := s.index.values[key];
      SafeDecodeSpec(s.(index := Touch(s.index, key)), e.file, DecodeFile(s.files, e.file, decode))
  }

  /** `remove`: a present entry leaves the index, its size leaves `currentSize`, its file is deleted and `REMOVE` journalled. */
  function RemoveSpec(s: DiskState, key: string): (r: DiskState)
    requires WellFormed(s)
    ensures WellFormed(r)
  {
    if key !in s.index.values then s
    else
      var e := s.index.values[key];
      DiskState(Remove(s.index, key), s.currentSize - e.size, s.journal + [RemoveLine(key)], s.files - {e.file})
  }

  function IndexedFiles(index: LinkedMap<CacheEntry>): set<string> {
    set k | k in index.values :: index.values[k].file
  }

  /** `clear`: every indexed file is deleted, the index emptied, the size zeroed and the journal recreated empty. */
  function ClearSpec(s: DiskState): (r: DiskState)
    requires WellFormed(s)
    ensures WellFormed(r)
  {
    DiskState(Empty(), 0, [], s.files - IndexedFiles(s.index))
  }

  // ---------------------------------------------------------------- journal replay

  /** What `loadJournal` accumulates while it reads the journal. */
  datatype ReplayState = ReplayState(index: LinkedMap<CacheEntry>, currentSize: int, dirty: set<string>, files: map<string, nat>)

  ghost predicate ReplayWellFormed(st: ReplayState) {
    WellFormed(DiskState(st.index, st.currentSize, [], st.files))
  }

  /**
   * One line: `DIRTY` marks the key; `CLEAN` installs the entry as the most recent and adds
   * its size, but only if the file exists, and unmarks the key; `REMOVE` drops the entry
   * (without touching the size), deletes the file and unmarks the key.
   */
  function ReplayLine(st: ReplayState, line: string): (r: ReplayState)
    requires ReplayWellFormed(st)
    ensures ReplayWellFormed(r)
  {
    match ParseLine(line)
    case DirtyRecord(k) => st.(dirty := st.dirty + {k})
    case CleanRecord(k, size) =>
      if k in st.files then
        st.(index := Put(st.index, k, CacheEntry(k, size)), currentSize := st.currentSize + size, dirty := st.dirty - {k})
      else st
    case RemoveRecord(k) => st.(index := Remove(st.index, k), files := st.files - {k}, dirty := st.dirty - {k})
    case Ignored => st
  }

  function ReplayAll(st: ReplayState, lines: seq<string>): (r: ReplayState)
    requires ReplayWellFormed(st)
    ensures ReplayWellFormed(r)
    decreases |lines|
  {
    if lines == [] then st else ReplayLine(ReplayAll(st, lines[..|lines| - 1]), lines[|lines| - 1])
  }

  function StartReplay(files: map<string, nat>): (st: ReplayState)
    ensures ReplayWellFormed(st)
  {
    ReplayState(Empty(), 0, {}, files)
  }

  /**
   * The cache a constructor finds: with no journal file, an empty index over the directory
   * as it is; otherwise the replayed index, the files of keys still dirty deleted, and
   * eviction run last. The journal keeps its lines.
   */
  function Load(journal: Option<seq<string>>, files: map<string, nat>, max: int): (r: DiskState)
    ensures WellFormed(r)
  {
    match journal
    case None => DiskState(Empty(), 0, [], files)
    case Some(lines) =>
      var st := ReplayAll(StartReplay(files), lines);
      Evict(DiskState(st.index, st.currentSize, lines, st.files - st.dirty), max)
  }

  // ---------------------------------------------------------------- properties

  /** The keys `Evict` takes out, in the order it takes them. */
  function EvictedKeys(s: DiskState, max: int): seq<string>
    requires WellFormed(s)
  {
    Trim(s.index, s.currentSize, max, EntrySize).evicted
  }

  /**
   * Eviction takes the least recently used entries first: a prefix of the order leaves the
   * index, loses its files and is journalled as `REMOVE` in that order, exactly those
   * entries' sizes leave `currentSize`, the other entries are kept as they were, and before
   * each eviction `currentSize` was still above the maximum.
   */
  lemma EvictTakesLeastRecent(s: DiskState, max: int)
    requires WellFormed(s)
    ensures var n := |EvictedKeys(s, max)|; var r := Evict(s, max);
      && n <= |s.index.order|
      && EvictedKeys(s, max) == s.index.order[..n]
      && r.index.order == s.index.order[n..]
      && (forall k :: k in r.index.values ==> k in s.index.values && r.index.values[k] == s.index.values[k])
      && r.journal == s.journal + RemoveLines(s.index.order[..n])
      && r.files == s.files - KeySet(s.index.order[..n])
      && r.currentSize == s.currentSize - Cost(s.index.order[..n], s.index.values, EntrySize)
      && (forall i :: 0 <= i < n ==> s.currentSize - Cost(s.index.order[..i], s.index.values, EntrySize) > max)
  {
    var t := Trim(s.index, s.currentSize, max, EntrySize);
    var n := |t.evicted|;
    TrimTakesPrefix(s.index, s.currentSize, max, EntrySize);
    TrimTotal(s.index, s.currentSize, max, EntrySize);
    assert t.evicted == s.index.order[..n] && t.rest.order == s.index.order[n..];
    forall i | 0 <= i < n
      ensures s.currentSize - Cost(s.index.order[..i], s.index.values, EntrySize) > max
    {
      TrimStopsEarly(s.index, s.currentSize, max, EntrySize, i);
      assert t.evicted[..i] == s.index.order[..i];
    }
  }

  /** Eviction does nothing while `currentSize` is within the maximum. */
  lemma EvictWithinMax(s: DiskState, max: int)
    requires WellFormed(s) && s.currentSize <= max
    ensures Evict(s, max) == s
  {
    assert s.journal + RemoveLines([]) == s.journal;
    assert s.files - KeySet([]) == s.files;
  }

  /** In a valid order the keys before position `n` and the keys from `n` on are different keys. */
  lemma OrderSplitDisjoint<V>(m: LinkedMap<V>, n: nat, k: string)
    requires Valid(m) && n <= |m.order| && k in m.order[n..]
    ensures k !in m.order[..n]
  {
    var j :| n <= j < |m.order| && m.order[j] == k by {
      var j' :| 0 <= j' < |m.order[n..]| && m.order[n..][j'] == k;
      assert m.order[n + j'] == k;
    }
    if k in m.order[..n] {
      var i :| 0 <= i < n && m.order[..n][i] == k;
      KeysMatchDistinct(m.order, m.values, i, j);
    }
  }

  /**
   * A successful `put` journals `DIRTY` then `CLEAN`, then one `REMOVE` per evicted key; the
   * entry, if eviction spares it, is the most recent one and carries the written size;
   * every other surviving entry was there before, unchanged.
   */
  lemma PutWrites(s: DiskState, key: string, length: nat, max: int)
    requires WellFormed(s)
    ensures var w := Written(s, key, length); var r := PutSpec(s, key, Renamed(length), max);
      && r.journal == s.journal + [DirtyLine(key), CleanLine(key, length)] + RemoveLines(EvictedKeys(w, max))
      && r.currentSize == s.currentSize + length - Cost(EvictedKeys(w, max), w.index.values, EntrySize)
      && (key in r.index.values ==>
            r.index.order != [] && r.index.order[|r.index.order| - 1] == key && r.index.values[key] == CacheEntry(key, length))
      && (forall k :: k in r.index.values && k != key ==> k in s.index.values && r.index.values[k] == s.index.values[k])
      && (r.currentSize <= max || r.index.order == [])
  {
    var w := Written(s, key, length);
    var r := Evict(w, max);
    EvictTakesLeastRecent(w, max);
    if key in r.index.values {
      KeysMatchIn(r.index.order, r.index.values, key);
      var n := |EvictedKeys(w, max)|;
      assert w.index.order[|w.index.order| - 1] == key;
      assert r.index.order[|r.index.order| - 1] == w.index.order[|w.index.order| - 1];
    }
  }

  /** With room to spare, a successful `put` evicts nothing and just records the entry. */
  lemma PutWithinMax(s: DiskState, key: string, length: nat, max: int)
    requires WellFormed(s) && s.currentSize + length <= max
    ensures var r := PutSpec(s, key, Renamed(length), max);
      && r.index.values == s.index.values[key := CacheEntry(key, length)]
      && r.index.order == Without(s.index.order, key) + [key]
      && r.currentSize == s.currentSize + length
      && r.journal == s.journal + [DirtyLine(key), CleanLine(key, length)]
  {
    EvictWithinMax(Written(s, key, length), max);
  }

  /** A failed `put` journals `DIRTY` then `REMOVE`, deletes `key.tmp`, and keeps index and size. */
  lemma PutFailureKeepsIndex(s: DiskState, key: string, outcome: WriteOutcome, max: int)
    requires WellFormed(s) && !outcome.Renamed?
    ensures var r := PutSpec(s, key, outcome, max);
      && r.index == s.index && r.currentSize == s.currentSize
      && r.journal == s.journal + [DirtyLine(key), RemoveLine(key)]
      && r.files == s.files - {TempFile(key)}
  {
  }

  /**
   * `currentSize` is not the sum of the entry sizes: overwriting a key adds the new size
   * but keeps the old one too, so afterwards it exceeds the sum by the old size.
   */
  lemma PutOverwriteKeepsOldSize(s: DiskState, key: string, length: nat, max: int)
    requires WellFormed(s) && key in s.index.values && s.currentSize + length <= max
    requires s.currentSize == Cost(s.index.order, s.index.values, EntrySize)
    ensures var r := PutSpec(s, key, Renamed(length), max);
      r.currentSize == Cost(r.index.order, r.index.values, EntrySize) + s.index.values[key].size
  {
    PutWithinMax(s, key, length, max);
    CostPut(s.index, key, CacheEntry(key, length), EntrySize);
  }

  /** `get` of an absent key changes nothing and misses. */
  lemma GetAbsent(s: DiskState, key: string, decode: DecodeOutcome)
    requires WellFormed(s) && key !in s.index.values
    ensures GetSpec(s, key, decode) == (s, None)
  {
  }

  /**
   * `get` of a present key makes it the most recent whatever the decode does. A decoded
   * bitmap is returned; a decode exception deletes the file and journals `REMOVE` but keeps
   * the entry and `currentSize`; a missing file is a miss with no further effect.
   */
  lemma GetPresent(s: DiskState, key: string, decode: DecodeOutcome)
    requires WellFormed(s) && key in s.index.values
    ensures var r := GetSpec(s, key, decode);
      && r.0.index.order == Without(s.index.order, key) + [key]
      && r.0.index.values == s.index.values && r.0.currentSize == s.currentSize
      && (key in s.files && decode.DecodedTo? ==> r.1 == Some(decode.bitmap) && r.0.files == s.files && r.0.journal == s.journal)
      && (key in s.files && decode.DecodedNull? ==> r.1 == None && r.0.files == s.files && r.0.journal == s.journal)
      && (key in s.files && decode.DecodeThrew? ==>
            r.1 == None && r.0.files == s.files - {key} && r.0.journal == s.journal + [RemoveLine(key)])
      && (key !in s.files ==> r.1 == None && r.0.files == s.files && r.0.journal == s.journal)
  {
  }

  /** `remove` of an absent key is a no-op without a journal line. */
  lemma RemoveAbsent(s: DiskState, key: string)
    requires WellFormed(s) && key !in s.index.values
    ensures RemoveSpec(s, key) == s
  {
  }

  /** `remove` of a present key subtracts exactly its size, deletes its file and journals `REMOVE`. */
  lemma RemovePresent(s: DiskState, key: string)
    requires WellFormed(s) && key in s.index.values
    ensures var r := RemoveSpec(s, key);
      && key !in r.index.values && key !in r.index.order
      && r.index.values == s.index.values - {key} && r.index.order == Without(s.index.order, key)
      && r.currentSize == s.currentSize - s.index.values[key].size
      && r.files == s.files - {key} && r.journal == s.journal + [RemoveLine(key)]
  {
  }

  /** After `clear` the index is empty, the size 0, the journal empty, and exactly the indexed files are gone. */
  lemma ClearDeletesIndexed(s: DiskState)
    requires WellFormed(s)
    ensures var r := ClearSpec(s);
      && r.index.order == [] && r.index.values == map[] && r.currentSize == 0 && r.journal == []
      && (forall f :: f in r.files <==> f in s.files && f !in s.index.values)
      && (forall f :: f in r.files ==> r.files[f] == s.files[f])
  {
    assert IndexedFiles(s.index) == s.index.values.Keys;
  }

  /** Every indexed entry has its file in the directory. */
  ghost predicate FilesBacked(s: DiskState) {
    forall k :: k in s.index.values ==> k in s.files
  }

  lemma EvictKeepsFilesBacked(s: DiskState, max: int)
    requires WellFormed(s) && FilesBacked(s)
    ensures FilesBacked(Evict(s, max))
  {
    var r := Evict(s, max);
    var n := |EvictedKeys(s, max)|;
    EvictTakesLeastRecent(s, max);
    forall k | k in r.index.values
      ensures k in r.files
    {
      KeysMatchIn(r.index.order, r.index.values, k);
      OrderSplitDisjoint(s.index, n, k);
    }
  }

  /**
   * `put`, `remove`, `clear` and a `get` whose decode does not throw keep every entry
   * backed by its file (as long as no entry is named like another key's temporary file).
   */
  lemma OperationsKeepFilesBacked(s: DiskState, key: string, outcome: WriteOutcome, decode: DecodeOutcome, max: int)
    requires WellFormed(s) && FilesBacked(s)
    ensures TempFile(key) !in s.index.values ==> FilesBacked(PutSpec(s, key, outcome, max))
    ensures FilesBacked(RemoveSpec(s, key))
    ensures FilesBacked(ClearSpec(s))
    ensures decode != DecodeThrew ==> FilesBacked(GetSpec(s, key, decode).0)
  {
    if outcome.Renamed? && TempFile(key) !in s.index.values {
      EvictKeepsFilesBacked(Written(s, key, outcome.length), max);
    }
  }

  /** A decode exception leaves an entry whose file is gone: the index and the directory disagree. */
  lemma DecodeExceptionOrphansEntry(s: DiskState, key: string)
    requires WellFormed(s) && key in s.index.values && key in s.files
    ensures key in GetSpec(s, key, DecodeThrew).0.index.values
    ensures key !in GetSpec(s, key, DecodeThrew).0.files
    ensures !FilesBacked(GetSpec(s, key, DecodeThrew).0)
  {
  }

  // ---------------------------------------------------------------- replay properties

  /** `CLEAN k size` installs the entry as the most recent and adds its size only when the file exists. */
  lemma ReplayClean(st: ReplayState, key: string, size: int)
    requires ReplayWellFormed(st) && ' ' !in key && IsLong(size)
    ensures var r := ReplayLine(st, CleanLine(key, size));
      && (key in st.files ==>
            && r.index.order == Without(st.index.order, key) + [key]
            && r.index.values == st.index.values[key := CacheEntry(key, size)]
            && r.currentSize == st.currentSize + size
            && r.dirty == st.dirty - {key} && r.files == st.files)
      && (key !in st.files ==> r == st)
  {
    JournalLinesRoundTrip(key, size);
  }

  /** `REMOVE k` drops the entry, deletes the file and unmarks the key, but leaves the size alone. */
  lemma ReplayRemove(st: ReplayState, key: string)
    requires ReplayWellFormed(st) && ' ' !in key
    ensures var r := ReplayLine(st, RemoveLine(key));
      && r.index.values == st.index.values - {key} && r.currentSize == st.currentSize
      && r.files == st.files - {key} && r.dirty == st.dirty - {key}
  {
    JournalLinesRoundTrip(key, 0);
  }

  /** The same `CLEAN` line replayed twice counts its size twice, yet leaves one entry. */
  lemma ReplayCleanTwice(st: ReplayState, key: string, size: int)
    requires ReplayWellFormed(st) && ' ' !in key && IsLong(size) && key in st.files
    ensures var r := ReplayAll(st, [CleanLine(key, size), CleanLine(key, size)]);
      && r.currentSize == st.currentSize + 2 * size
      && r.index.values == st.index.values[key := CacheEntry(key, size)]
  {
    var line := CleanLine(key, size);
    var st1 := ReplayLine(st, line);
    assert ReplayAll(st, [line]) == st1 by {
      assert [line][..0] == [];
    }
    assert ReplayAll(st, [line, line]) == ReplayLine(st1, line) by {
      assert [line, line][..1] == [line];
    }
    ReplayClean(st, key, size);
    ReplayClean(st1, key, size);
  }

  /** Replaying only ever deletes files; the lengths of the others are untouched. */
  lemma {:induction false} ReplayOnlyDeletes(st: ReplayState, lines: seq<string>)
    requires ReplayWellFormed(st)
    ensures forall f :: f in ReplayAll(st, lines).files ==> f in st.files && ReplayAll(st, lines).files[f] == st.files[f]
    decreases |lines|
  {
    if lines != [] {
      ReplayOnlyDeletes(st, lines[..|lines| - 1]);
    }
  }

  /** After the last line, a key the line removes is in neither the index, the directory nor the dirty set. */
  lemma ReplayEndsWithRemove(st: ReplayState, lines: seq<string>, key: string)
    requires ReplayWellFormed(st) && lines != [] && ParseLine(lines[|lines| - 1]) == RemoveRecord(key)
    ensures var r := ReplayAll(st, lines);
      key !in r.index.values && key !in r.files && key !in r.dirty
  {
  }

  /** Loading never creates or changes a file; it only deletes. */
  lemma LoadOnlyDeletes(journal: Option<seq<string>>, files: map<string, nat>, max: int)
    ensures forall f :: f in Load(journal, files, max).files ==> f in files && Load(journal, files, max).files[f] == files[f]
  {
    if journal.Some? {
      var st := ReplayAll(StartReplay(files), journal.value);
      ReplayOnlyDeletes(StartReplay(files), journal.value);
      EvictTakesLeastRecent(DiskState(st.index, st.currentSize, journal.value, st.files - st.dirty), max);
    }
  }

  /**
   * Loading ends with eviction, and a key still marked dirty at the end of the journal
   * has its file deleted.
   */
  lemma LoadDeletesDirty(lines: seq<string>, files: map<string, nat>, max: int)
    ensures var r := Load(Some(lines), files, max);
      && (r.currentSize <= max || r.index.order == [])
      && forall k :: k in ReplayAll(StartReplay(files), lines).dirty ==> k !in r.files
  {
    var st := ReplayAll(StartReplay(files), lines);
    EvictTakesLeastRecent(DiskState(st.index, st.currentSize, lines, st.files - st.dirty), max);
  }

  /** Without a journal file the cache starts empty over the directory as it is. */
  lemma LoadWithoutJournal(files: map<string, nat>, max: int)
    ensures var r := Load(None, files, max);
      r.index.values == map[] && r.currentSize == 0 && r.journal == [] && r.files == files
  {
  }

  /**
   * A `CLEAN` line followed by a `DIRTY` line for the same key (a `put` that was
   * interrupted after overwriting) leaves an entry in the index whose file the dirty
   * clean-up has deleted.
   */
  lemma CleanThenDirtyOrphansEntry()
    ensures var r := Load(Some([CleanLine("a", 5), DirtyLine("a")]), map["a" := 5], 100);
      "a" in r.index.values && "a" !in r.files
      && r.files == map[] && r.journal == [CleanLine("a", 5), DirtyLine("a")]
  {
    var lines := [CleanLine("a", 5), DirtyLine("a")];
    JournalLinesRoundTrip("a", 5);
    var st0 := StartReplay(map["a" := 5]);
    assert lines[..1] == [CleanLine("a", 5)] && lines[..1][..0] == [];
    var st1 := ReplayLine(st0, CleanLine("a", 5));
    assert ReplayAll(st0, lines[..1]) == st1;
    var st2 := ReplayLine(st1, DirtyLine("a"));
    assert ReplayAll(st0, lines) == st2;
    assert st2.currentSize == 5 && "a" in st2.index.values && "a" in st2.dirty;
    EvictWithinMax(DiskState(st2.index, st2.currentSize, lines, st2.files - st2.dirty), 100);
    assert st2.files - st2.dirty == map[];
  }

  /**
   * Loading is not idempotent. Loading again the journal and directory that a first load
   * left behind can drop an entry the first load kept: after `CLEAN a 5`, `DIRTY a` the
   * first load keeps `a` with its file deleted, and the second finds no file for the
   * `CLEAN` line and so indexes nothing.
   */
  lemma ReloadDropsOrphanedEntry()
    ensures var r1 := Load(Some([CleanLine("a", 5), DirtyLine("a")]), map["a" := 5], 100);
      var r2 := Load(Some(r1.journal), r1.files, 100);
      "a" in r1.index.values && "a" !in r2.index.values
  {
    var lines := [CleanLine("a", 5), DirtyLine("a")];
    CleanThenDirtyOrphansEntry();
    JournalLinesRoundTrip("a", 5);
    var st0 := StartReplay(map[]);
    assert lines[..1] == [CleanLine("a", 5)] && lines[..1][..0] == [];
    assert ReplayAll(st0, lines[..1]) == st0;
    var st := ReplayAll(st0, lines);
    assert st.index == st0.index;
    EvictTakesLeastRecent(DiskState(st.index, st.currentSize, lines, st.files - st.dirty), 100);
  }

  /** The record is about this key. */
  predicate Names(r: Record, key: string) {
    !r.Ignored? && r.key == key
  }

  /** Without a `CLEAN` line for it, a key the replay starts without never enters the index. */
  lemma {:induction false} NoCleanNeverIndexed(st: ReplayState, lines: seq<string>, key: string)
    requires ReplayWellFormed(st) && key !in st.index.values
    requires forall i :: 0 <= i < |lines| ==> !(ParseLine(lines[i]).CleanRecord? && ParseLine(lines[i]).key == key)
    ensures key !in ReplayAll(st, lines).index.values
    decreases |lines|
  {
    if lines != [] {
      var init := lines[..|lines| - 1];
      assert forall i :: 0 <= i < |init| ==> init[i] == lines[i];
      NoCleanNeverIndexed(st, init, key);
    }
  }

  /** A key marked by the `DIRTY` line at `j` stays marked while no later line names it. */
  lemma {:induction false} DirtyPersists(st: ReplayState, lines: seq<string>, key: string, j: nat, n: nat)
    requires ReplayWellFormed(st) && j < n <= |lines|
    requires ParseLine(lines[j]) == DirtyRecord(key)
    requires forall i :: j < i < |lines| ==> !Names(ParseLine(lines[i]), key)
    ensures key in ReplayAll(st, lines[..n]).dirty
    decreases n
  {
    assert lines[..n][..n - 1] == lines[..n - 1];
    if n > j + 1 {
      DirtyPersists(st, lines, key, j, n - 1);
      assert !Names(ParseLine(lines[n - 1]), key);
    }
  }

  /**
   * Crash consistency for a key that was never committed: when the last journal line
   * naming the key is `DIRTY` and no `CLEAN` line names it, loading leaves neither an
   * index entry nor a file for it.
   */
  lemma LoadDropsUncommittedKey(lines: seq<string>, files: map<string, nat>, max: int, key: string, j: nat)
    requires j < |lines| && ParseLine(lines[j]) == DirtyRecord(key)
    requires forall i :: j < i < |lines| ==> !Names(ParseLine(lines[i]), key)
    requires forall i :: 0 <= i < |lines| ==> !(ParseLine(lines[i]).CleanRecord? && ParseLine(lines[i]).key == key)
    ensures var r := Load(Some(lines), files, max);
      key !in r.index.values && key !in r.files
  {
    var st := ReplayAll(StartReplay(files), lines);
    NoCleanNeverIndexed(StartReplay(files), lines, key);
    DirtyPersists(StartReplay(files), lines, key, j, |lines|);
    assert lines[..|lines|] == lines;
    LoadDeletesDirty(lines, files, max);
    EvictTakesLeastRecent(DiskState(st.index, st.currentSize, lines, st.files - st.dirty), max);
  }

  // ---------------------------------------------------------------- the cache object

  /**
   * The cache over its directory. `State()` is the value the operations above describe;
   * every method leaves the object in the state its specification function computes.
   */
  class DiskLruCache {
    const maxSizeBytes: int
    var cacheMap: LinkedMap<CacheEntry>
    var currentSize: int
    var journal: seq<string>
    var files: map<string, nat>

    function State(): DiskState
      reads this
    {
      DiskState(cacheMap, currentSize, journal, files)
    }

    ghost predicate Valid()
      reads this
    {
      WellFormed(State())
    }

    /** `init`: the directory as found, then `loadJournal` on the journal file, if there is one. */
    constructor (maxSizeBytes: int, journalFile: Option<seq<string>>, directory: map<string, nat>)
      ensures Valid() && this.maxSizeBytes == maxSizeBytes
      ensures State() == Load(journalFile, directory, maxSizeBytes)
    {
      this.maxSizeBytes := maxSizeBytes;
      cacheMap := Empty();
      currentSize := 0;
      journal := journalFile.GetOr([]);
      files := directory;
      new;
      LoadJournal(journalFile);
    }

    method LoadJournal(journalFile: Option<seq<string>>)
      requires cacheMap == Empty() && currentSize == 0 && journal == journalFile.GetOr([])
      modifies this
      ensures Valid() && State() == Load(journalFile, old(files), maxSizeBytes)
    {
      if journalFile.None? {
        return;
      }
      var lines := journalFile.value;
      var dirtyKeys := ReplayLines(lines);
      ghost var replayed := ReplayState(cacheMap, currentSize, dirtyKeys, files);
      assert ReplayWellFormed(replayed);
      DeleteFiles(dirtyKeys);
      EvictIfNeeded();
    }

    /** The `forEachLine` loop of `loadJournal`, which also gathers the keys left dirty. */
    method ReplayLines(lines: seq<string>) returns (dirtyKeys: set<string>)
      requires cacheMap == Empty() && currentSize == 0
      modifies this`cacheMap, this`currentSize, this`files
      ensures ReplayState(cacheMap, currentSize, dirtyKeys, files) == ReplayAll(StartReplay(old(files)), lines)
    {
      dirtyKeys := {};
      for i := 0 to |lines|
        invariant ReplayState(cacheMap, currentSize, dirtyKeys, files) == ReplayAll(StartReplay(old(files)), lines[..i])
      {
        ghost var before := ReplayState(cacheMap, currentSize, dirtyKeys, files);
        assert ReplayAll(StartReplay(old(files)), lines[..i + 1]) == ReplayLine(before, lines[i]) by {
          assert lines[..i + 1][..i] == lines[..i];
        }
        dirtyKeys := ReplayOne(lines[i], dirtyKeys);
      }
      assert lines[..|lines|] == lines;
    }

    /** One line of the replay loop. */
    method ReplayOne(line: string, dirtyKeys: set<string>) returns (dirtyKeys': set<string>)
      requires ReplayWellFormed(ReplayState(cacheMap, currentSize, dirtyKeys, files))
      modifies this`cacheMap, this`currentSize, this`files
      ensures ReplayState(cacheMap, currentSize, dirtyKeys', files)
           == ReplayLine(old(ReplayState(cacheMap, currentSize, dirtyKeys, files)), line)
    {
      dirtyKeys' := dirtyKeys;
      match ParseLine(line) {
        case DirtyRecord(k) =>
          dirtyKeys' := dirtyKeys + {k};
        case CleanRecord(k, size) =>
          if k in files {
            cacheMap := AccessOrder.Put(cacheMap, k, CacheEntry(k, size));
            currentSize := currentSize + size;
            dirtyKeys' := dirtyKeys - {k};
          }
        case RemoveRecord(k) =>
          cacheMap := AccessOrder.Remove(cacheMap, k);
          files := files - {k};
          dirtyKeys' := dirtyKeys - {k};
        case Ignored =>
      }
    }

    /** The `for (dirtyKey in dirtyKeys)` loop: each named file is deleted. */
    method DeleteFiles(names: set<string>)
      modifies this`files
      ensures files == old(files) - names
    {
      var remaining := names;
      while remaining != {}
        invariant remaining <= names
        invariant files == old(files) - (names - remaining)
        decreases |remaining|
      {
        var k :| k in remaining;
        files := files - {k};
        remaining := remaining - {k};
      }
    }

    /** `appendJournal`: one more line at the end of the journal. */
    method AppendJournal(line: string)
      modifies this`journal
      ensures journal == old(journal) + [line]
    {
      journal := journal + [line];
    }

    method Put(key: string, outcome: WriteOutcome)
      requires Valid()
      modifies this
      ensures Valid() && State() == PutSpec(old(State()), key, outcome, maxSizeBytes)
    {
      ghost var start := State();
      var tempFile := TempFile(key);
      AppendJournal(DirtyLine(key));
      match outcome {
        case Renamed(length) =>
          files := (files - {tempFile})[key := length];
          var size := length;
          cacheMap := AccessOrder.Put(cacheMap, key, CacheEntry(key, size));
          currentSize := currentSize + size;
          AppendJournal(CleanLine(key, size));
          assert State() == Written(start, key, length);
          EvictIfNeeded();
        case _ =>
          files := files - {tempFile};
          AppendJournal(RemoveLine(key));
          assert State() == start.(journal := start.journal + [DirtyLine(key), RemoveLine(key)], files := start.files - {TempFile(key)});
      }
    }

    method Get(key: string, decode: DecodeOutcome) returns (bitmap: Option<Bitmap>)
      requires Valid()
      modifies this
      ensures Valid() && (State(), bitmap) == GetSpec(old(State()), key, decode)
    {
      if key !in cacheMap.values {
        return None;
      }
      var entry := cacheMap.values[key];
      cacheMap := Touch(cacheMap, key);
      bitmap := SafeDecode(entry.file, DecodeFile(files, entry.file, decode));
    }

    /** `containsKey`: membership in the index; neither the order nor anything else changes. */
    method ContainsKey(key: string) returns (present: bool)
      requires Valid()
      ensures present <==> key in cacheMap.order
    {
      KeysAreOrder(cacheMap);
      present := key in cacheMap.values;
    }

    method Remove(key: string)
      requires Valid()
      modifies this
      ensures Valid() && State() == RemoveSpec(old(State()), key)
    {
      if key !in cacheMap.values {
        return;
      }
      var entry := cacheMap.values[key];
      cacheMap := AccessOrder.Remove(cacheMap, key);
      currentSize := currentSize - entry.size;
      files := files - {entry.file};
      AppendJournal(RemoveLine(key));
    }

    method Clear()
      requires Valid()
      modifies this
      ensures Valid() && State() == ClearSpec(old(State()))
    {
      var order, values := cacheMap.order, cacheMap.values;
      KeysAreOrder(cacheMap);
      for i := 0 to |order|
        invariant files == old(files) - (set j | 0 <= j < i :: values[order[j]].file)
      {
        files := files - {values[order[i]].file};
        assert (set j | 0 <= j < i + 1 :: values[order[j]].file)
            == (set j | 0 <= j < i :: values[order[j]].file) + {values[order[i]].file};
      }
      assert (set j | 0 <= j < |order| :: values[order[j]].file) == IndexedFiles(old(cacheMap)) by {
        forall k | k in values
          ensures values[k].file in (set j | 0 <= j < |order| :: values[order[j]].file)
        {
          var j :| 0 <= j < |order| && order[j] == k;
        }
      }
      cacheMap := Empty();
      currentSize := 0;
      journal := [];
    }

    method EvictIfNeeded()
      requires Valid()
      modifies this
      ensures Valid() && State() == Evict(old(State()), maxSizeBytes)
    {
      if currentSize <= maxSizeBytes {
        return;
      }
      while cacheMap.order != [] && currentSize > maxSizeBytes
        invariant Valid()
        invariant Evict(State(), maxSizeBytes) == Evict(old(State()), maxSizeBytes)
        decreases |cacheMap.order|
      {
        var k := cacheMap.order[0];
        var entry := cacheMap.values[k];
        ghost var next := EvictEldest(State());
        EvictStep(State(), maxSizeBytes);
        currentSize := currentSize - entry.size;
        files := files - {entry.file};
        cacheMap := RemoveEldest(cacheMap);
        AppendJournal(RemoveLine(k));
        assert State() == next;
      }
      assert State().journal + RemoveLines([]) == State().journal;
      assert State().files - KeySet([]) == State().files;
    }

    method SafeDecode(file: string, outcome: DecodeOutcome) returns (bitmap: Option<Bitmap>)
      modifies this`files, this`journal
      ensures (State(), bitmap) == SafeDecodeSpec(old(State()), file, outcome)
    {
      match outcome {
        case DecodedTo(b) =>
          bitmap := Some(b);
        case DecodedNull =>
          bitmap := None;
        case DecodeThrew =>
          files := files - {file};
          AppendJournal(RemoveLine(file));
          bitmap := None;
      }
    }
  }
}
