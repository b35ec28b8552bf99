/**
 * `CacheConfig`: the memory tier's capacity, in KB, tiered by the maximum heap size
 * (also in KB), and the disk tier's default capacity in bytes. `Runtime.maxMemory()` is
 * a parameter.
 */
module Config {
  import opened Numerics

  datatype CacheConfig = CacheConfig(maxMemory: int, memoryCacheSize: int, diskCacheSize: int)

  const TIER_SMALL: int := 64 * 1024
  const TIER_MEDIUM: int := 256 * 1024

  /** The `when` on `maxMemory`: a Kotlin `Long` divided, then narrowed with `toInt()`. */
  function MemoryCacheSize(maxMemory: int): (size: int)
    requires IsLong(maxMemory)
    ensures IsInt(size)
  {
    if maxMemory < TIER_SMALL then Wrap32(TruncDiv(maxMemory, 8))
    else if maxMemory < TIER_MEDIUM then Wrap32(TruncDiv(maxMemory, 6))
    else Wrap32(TruncDiv(maxMemory, 4))
  }

  /** The default argument `5 * 1024 * 1024`. */
  function DefaultDiskCacheSize(): (bytes: int)
    ensures bytes == 5242880
  {
    5 * 1024 * 1024
  }

  /** A configuration built with every default except the heap size. */
  function DefaultConfig(maxMemory: int): (c: CacheConfig)
    requires IsLong(maxMemory)
    ensures c.maxMemory == maxMemory && c.memoryCacheSize == MemoryCacheSize(maxMemory)
    ensures c.diskCacheSize == 5242880
  {
    CacheConfig(maxMemory, MemoryCacheSize(maxMemory), DefaultDiskCacheSize())
  }

  /** Heaps this large (8 TiB) are where the narrowing starts to wrap; below it the
      tiers are plain fractions of the heap. */
  const NO_WRAP_BOUND: int := 0x2_0000_0000

  /** The three tiers: an eighth below 64 MB, a sixth below 256 MB, a quarter above. */
  lemma MemoryCacheTiers(maxMemory: int)
    requires 0 <= maxMemory < NO_WRAP_BOUND
    ensures maxMemory < 65536 ==> MemoryCacheSize(maxMemory) == maxMemory / 8
    ensures 65536 <= maxMemory < 262144 ==> MemoryCacheSize(maxMemory) == maxMemory / 6
    ensures 262144 <= maxMemory ==> MemoryCacheSize(maxMemory) == maxMemory / 4
  {
  }

  /** Never more than a quarter of the heap, and never negative. */
  lemma MemoryCacheBounded(maxMemory: int)
    requires 0 <= maxMemory < NO_WRAP_BOUND
    ensures 0 <= MemoryCacheSize(maxMemory) <= maxMemory / 4
  {
    MemoryCacheTiers(maxMemory);
  }

  /** A larger heap never gets a smaller memory cache, also across tier boundaries. */
  lemma MemoryCacheMonotone(a: int, b: int)
    requires 0 <= a <= b < NO_WRAP_BOUND
    ensures MemoryCacheSize(a) <= MemoryCacheSize(b)
  {
    MemoryCacheTiers(a);
    MemoryCacheTiers(b);
  }

  /** At the bound the quarter no longer fits an `Int` and `toInt()` makes it negative. */
  lemma MemoryCacheWrapsAtBound()
    ensures MemoryCacheSize(NO_WRAP_BOUND) == INT_MIN
  {
  }
}
