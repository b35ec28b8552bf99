/**
 * `CacheRepositoryImpl`: the two-level cache. Writes go to memory and then to disk; a read
 * tries memory, then disk, and copies a disk hit into memory; `clear` empties both tiers.
 */
module Repository {
  import opened Wrappers
  import opened Graphics
  import opened DiskLru
  import opened MemoryTier
  import opened DiskTier

  datatype RepoState = RepoState(memory: MemState, disk: DiskState)

  /** What the two-level cache is configured with: the memory capacity (KB), the disk
      capacity (bytes) and the digest the disk tier names files by. */
  datatype Tiers = Tiers(memoryMax: int, diskMax: int, md5: string -> Digest)

  ghost predicate RepoWellFormed(s: RepoState, t: Tiers) {
    MemWellFormed(s.memory, t.memoryMax) && t.memoryMax > 0 && WellFormed(s.disk)
  }

  /** `put`: memory first, then disk (`outcome` is how the disk write went). */
  function RepoPut(s: RepoState, t: Tiers, url: string, b: Bitmap, outcome: WriteOutcome): (r: RepoState)
    requires RepoWellFormed(s, t)
    ensures RepoWellFormed(r, t)
  {
    PutKeepsWellFormed(s.memory, url, b, t.memoryMax);
    RepoState(MemPut(s.memory, url, b, t.memoryMax), PutSpec(s.disk, HashKeyForDisk(url, t.md5), outcome, t.diskMax))
  }

  /** `get`: `memoryCache.get(url) ?: diskCache.get(url)?.also { memoryCache.put(url, it) }`;
      `decode` is what decoding the disk file would give. */
  function RepoGet(s: RepoState, t: Tiers, url: string, decode: DecodeOutcome): (r: (RepoState, Option<Bitmap>))
    requires RepoWellFormed(s, t)
    ensures RepoWellFormed(r.0, t)
  {
    GetKeepsWellFormed(s.memory, url, t.memoryMax);
    var (memory, hit) := MemGet(s.memory, url);
    if hit.Some? then (RepoState(memory, s.disk), hit)
    else
      var (disk, fromDisk) := GetSpec(s.disk, HashKeyForDisk(url, t.md5), decode);
      match fromDisk
      case Some(b) =>
        PutKeepsWellFormed(memory, url, b, t.memoryMax);
        (RepoState(MemPut(memory, url, b, t.memoryMax), disk), fromDisk)
      case None => (RepoState(memory, disk), None)
  }

  /** `clear`: memory first, then disk. */
  function RepoClear(s: RepoState, t: Tiers): (r: RepoState)
    requires RepoWellFormed(s, t)
    ensures RepoWellFormed(r, t)
  {
    ClearKeepsWellFormed(s.memory, t.memoryMax);
    RepoState(MemClear(s.memory), ClearSpec(s.disk))
  }

  /** A memory hit is returned as is and the disk tier is not consulted. */
  lemma MemoryHitSkipsDisk(s: RepoState, t: Tiers, url: string, decode: DecodeOutcome)
    requires RepoWellFormed(s, t) && Lookup(s.memory, url).Some?
    ensures RepoGet(s, t, url, decode).1 == Lookup(s.memory, url)
    ensures RepoGet(s, t, url, decode).0.disk == s.disk
    ensures RepoGet(s, t, url, decode).0.memory.entries.values == s.memory.entries.values
  {
  }

  /** On a memory miss the disk tier answers, and a disk hit is copied into memory
      (where it stays whenever it fits the memory capacity). */
  lemma DiskHitPromotes(s: RepoState, t: Tiers, url: string, decode: DecodeOutcome)
    requires RepoWellFormed(s, t) && Lookup(s.memory, url) == None
    ensures var name := HashKeyForDisk(url, t.md5);
      var (disk, fromDisk) := GetSpec(s.disk, name, decode);
      var r := RepoGet(s, t, url, decode);
      && r.1 == fromDisk && r.0.disk == disk
      && (fromDisk.None? ==> r.0.memory == s.memory)
      && (fromDisk.Some? ==> r.0.memory == MemPut(s.memory, url, fromDisk.value, t.memoryMax))
      && (fromDisk.Some? && SizeOf(fromDisk.value) <= t.memoryMax ==> Lookup(r.0.memory, url) == fromDisk)
  {
    var (disk, fromDisk) := GetSpec(s.disk, HashKeyForDisk(url, t.md5), decode);
    if fromDisk.Some? {
      PutReplaces(s.memory, url, fromDisk.value, t.memoryMax);
    }
  }

  /**
   * A bitmap just put is read back: from memory if memory kept it, otherwise from disk,
   * provided the disk write succeeded with room to spare and its file decodes to it.
   */
  lemma PutThenGetBack(s: RepoState, t: Tiers, url: string, b: Bitmap, length: nat)
    requires RepoWellFormed(s, t) && s.disk.currentSize + length <= t.diskMax
    ensures var p := RepoPut(s, t, url, b, Renamed(length));
      RepoGet(p, t, url, DecodedTo(b)).1 == Some(b)
  {
    PutReplaces(s.memory, url, b, t.memoryMax);
    PutThenGet(s.disk, url, t.md5, length, t.diskMax, b);
  }

  /** After `clear` every read misses in both tiers and changes nothing but the memory order. */
  lemma ClearThenGetMisses(s: RepoState, t: Tiers, url: string, decode: DecodeOutcome)
    requires RepoWellFormed(s, t)
    ensures var c := RepoClear(s, t);
      RepoGet(c, t, url, decode).1 == None && RepoGet(c, t, url, decode).0 == c
  {
    ClearEmpties(s.memory, url, t.memoryMax);
    ClearDeletesIndexed(s.disk);
  }

  /** The repository over its two tiers. */
  class CacheRepositoryImpl {
    const memoryCache: MemoryCache
    const diskCache: DiskCache
    ghost const tiers: Tiers

    function State(): RepoState
      reads this, memoryCache, diskCache.cache
    {
      RepoState(memoryCache.State(), diskCache.cache.State())
    }

    ghost predicate Valid()
      reads this, memoryCache, diskCache, diskCache.cache
    {
      && memoryCache.Valid() && diskCache.Valid()
      && tiers == Tiers(memoryCache.maxSize, diskCache.cache.maxSizeBytes, diskCache.md5)
    }

    constructor (memoryCache: MemoryCache, diskCache: DiskCache)
      requires memoryCache.Valid() && diskCache.Valid()
      ensures Valid() && this.memoryCache == memoryCache && this.diskCache == diskCache
    {
      this.memoryCache := memoryCache;
      this.diskCache := diskCache;
      tiers := Tiers(memoryCache.maxSize, diskCache.cache.maxSizeBytes, diskCache.md5);
    }

    method Put(url: string, bitmap: Bitmap, outcome: WriteOutcome)
      requires Valid()
      modifies memoryCache, diskCache.cache
      ensures Valid() && State() == RepoPut(old(State()), tiers, url, bitmap, outcome)
    {
      memoryCache.Put(url, bitmap);
      diskCache.Put(url, outcome);
    }

    method Get(url: string, decode: DecodeOutcome) returns (bitmap: Option<Bitmap>)
      requires Valid()
      modifies memoryCache, diskCache.cache
      ensures Valid() && (State(), bitmap) == RepoGet(old(State()), tiers, url, decode)
    {
      bitmap := memoryCache.Get(url);
      if bitmap.None? {
        bitmap := diskCache.Get(url, decode);
        if bitmap.Some? {
          memoryCache.Put(url, bitmap.value);
        }
      }
    }

    method Clear()
      requires Valid()
      modifies memoryCache, diskCache.cache
      ensures Valid() && State() == RepoClear(old(State()), tiers)
    {
      memoryCache.Clear();
      diskCache.Clear();
    }
  }
}
