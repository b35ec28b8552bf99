# fake-glide, modelled in Dafny

A Dafny model of the caching and key logic of fake-glide, a small Android image loader
written in Kotlin, with proofs about that model. The loader works in three steps:

- It turns a request (url, requested size, list of transformations) into cache keys.
- It looks the keys up in a two-level cache: an in-memory LRU weighed in KB, and a
  journaled disk LRU whose files are named by the MD5 digest of the key.
- On a miss it fetches the image, downsamples it by a power-of-two factor, stores it,
  and applies the transformations (circle crop, rounded-corner crop).

The model follows the program's structure, one module per part:

| module | part of the program |
|---|---|
| `AccessOrder` | an access-ordered `LinkedHashMap` as a value: the key order, the values, and LRU trimming by cost |
| `DiskLru` | `DiskLruCache`: index, running size, journal lines and the cache directory as a spec value; the class `DiskLruCache` with the source's fields and methods |
| `DiskTier` | `DiskCache`: the hex-rendered MD5 disk key and delegation to the inner cache |
| `MemoryTier` | `MemoryCache` over the platform `LruCache`: the KB weight, put/get/evictAll, and the class |
| `Repository` | `CacheRepositoryImpl`: memory-then-disk lookup with promotion, writes to both tiers |
| `Config` | `CacheConfig`: tiered memory sizing with Kotlin `Long`/`Int` arithmetic, and the disk size default |
| `Loader` | `ImageLoader`: `genCacheKey`, `applyTransformations`, `load2` and `load` |
| `Sampling` | `ImageLoader.calculateInSampleSize`, over 32-bit `Int` |
| `Requests` | `ImageRequest` and the fluent `RequestBuilder` |
| `Transformations` | `CircleCrop` and `RoundedCornerCrop`: keys, crop geometry, output shape, recycling |
| `SizeResolver` | `ComposeSizeResolver.resolve` |
| `Strings`, `Numerics`, `Graphics`, `Wrappers` | the Kotlin library behaviour and platform types the rest relies on |

Every stateful component follows one pattern:

- A datatype holds the component's state as a value (`DiskState`, `MemState`, `RepoState`).
- Functions over that value say what each operation does, and lemmas prove the
  properties. These are the counted contracts.
- A class holds the source's own fields and implements each method step by step,
  with the source's loops. Every method ensures that the new state is the
  specification function applied to the old state.

The world outside the core enters as parameters:

- the outcome of writing a bitmap to disk: compress failure, rename failure, or the
  length of the renamed file;
- the outcome of decoding a file: a bitmap, null or an exception;
- the network fetch: a bitmap, null, or an exception that escapes `load`/`load2`;
- the MD5 function;
- the text of a `Float` radius.

Files are a map from file name to length.

Behaviour the model keeps as the code has it, because the code is what runs:

- `currentSize` is not the sum of the entry sizes. Overwriting a key adds the new size
  and keeps the old one (`PutOverwriteKeepsOldSize`). A replayed `CLEAN` line counts its
  size each time (`ReplayCleanTwice`). A replayed `REMOVE` subtracts nothing (`ReplayRemove`).
- A decode exception deletes the file but keeps the index entry (`DecodeExceptionOrphansEntry`). This describes the `catch` in `safeDecode` for a decoder that throws. Android's `BitmapFactory.decodeFile` catches its own exceptions and returns null, so this path is rarely taken in practice. Every lemma holds for all three decode outcomes.
- A journal with `CLEAN k` followed by `DIRTY k` (a `put` over an existing key that was
  interrupted) leaves `k` indexed while its file is deleted (`CleanThenDirtyOrphansEntry`).
- Loading the journal is not idempotent. Loading a second time over the journal and
  directory that the first load left can drop an entry the first load kept
  (`ReloadDropsOrphanedEntry`).
- A missing file decodes to null (`BitmapFactory.decodeFile` returns null for it).

## Model

| member | source | states |
|---|---|---|
| AccessOrder.Touch | fakedisklrucache/src/main/java/com/example/fakedisklrucache/DiskLruCache.kt:14 | a read of a present key moves it to the most recent end, keeps every value, and leaves a missing key's map as it was (the access-ordered `LinkedHashMap`) |
| AccessOrder.Put | fakedisklrucache/src/main/java/com/example/fakedisklrucache/DiskLruCache.kt:14 | an insert or overwrite sets the value and makes the key the most recent; the order stays a duplicate-free listing of the keys |
| AccessOrder.Remove | fakedisklrucache/src/main/java/com/example/fakedisklrucache/DiskLruCache.kt:14 | removal takes the key out of both the order and the values |
| AccessOrder.Trim | fakedisklrucache/src/main/java/com/example/fakedisklrucache/DiskLruCache.kt:159-170 | LRU trimming from the eldest end; afterwards the total fits the maximum or nothing is left |
| AccessOrder.TrimTakesPrefix | fakedisklrucache/src/main/java/com/example/fakedisklrucache/DiskLruCache.kt:162-169 | trimming evicts a prefix of the order, least recently used first, and keeps the remaining values unchanged |
| AccessOrder.TrimTotal | fakedisklrucache/src/main/java/com/example/fakedisklrucache/DiskLruCache.kt:165 | the running total falls by exactly the costs of the evicted entries |
| AccessOrder.TrimStopsEarly | fakedisklrucache/src/main/java/com/example/fakedisklrucache/DiskLruCache.kt:163 | before every eviction the total was still above the maximum, so trimming stops at the first point where it fits |
| AccessOrder.TrimKeepsCost | fakeglide/src/main/java/com/example/fakeglide/cache/MemoryCache.kt:10-13 | a total that equals the summed entry costs still equals it after trimming |
| AccessOrder.CostPut | fakeglide/src/main/java/com/example/fakeglide/cache/MemoryCache.kt:16-18 | after an insert the summed cost loses the replaced value's cost and gains the new one's |
| Config.MemoryCacheSize | fakeglide/src/main/java/com/example/fakeglide/cache/CacheConfig.kt:5-9 | the tiered division of a `Long` heap size, narrowed by `toInt()`, always fits an `Int` |
| Config.MemoryCacheTiers | fakeglide/src/main/java/com/example/fakeglide/cache/CacheConfig.kt:6-8 | an eighth below 64 MB, a sixth from 64 MB up to 256 MB, a quarter from 256 MB on (heap sizes below 8 TiB) |
| Config.MemoryCacheBounded | fakeglide/src/main/java/com/example/fakeglide/cache/CacheConfig.kt:5-9 | the memory cache size is non-negative and at most a quarter of the heap size |
| Config.MemoryCacheMonotone | fakeglide/src/main/java/com/example/fakeglide/cache/CacheConfig.kt:5-9 | a larger heap never gets a smaller memory cache, also across tier boundaries |
| Config.MemoryCacheWrapsAtBound | fakeglide/src/main/java/com/example/fakeglide/cache/CacheConfig.kt:8 | at a heap of 2^33 KB the quarter overflows `Int` and `toInt()` yields `Int.MIN_VALUE` |
| Config.DefaultDiskCacheSize | fakeglide/src/main/java/com/example/fakeglide/cache/CacheConfig.kt:10 | the disk cache defaults to 5242880 bytes |
| Config.DefaultConfig | fakeglide/src/main/java/com/example/fakeglide/cache/CacheConfig.kt:3-11 | a configuration with only the heap size given has the tiered memory size and the 5242880-byte disk size |
| DiskLru.JournalLinesRoundTrip | fakedisklrucache/src/main/java/com/example/fakedisklrucache/DiskLruCache.kt:37-65 | every `DIRTY`, `CLEAN k size` and `REMOVE` line the cache writes parses back, by `split(" ")` and `toLongOrNull`, as the record it stands for (keys without spaces, `Long` sizes) |
| DiskLru.UnparsableSizeIsZero | fakedisklrucache/src/main/java/com/example/fakedisklrucache/DiskLruCache.kt:48 | a `CLEAN` line whose size is not a `Long` records size 0 |
| DiskLru.Evict | fakedisklrucache/src/main/java/com/example/fakedisklrucache/DiskLruCache.kt:159-170 | eviction keeps the index consistent and ends with `currentSize` within the maximum or an empty index |
| DiskLru.EvictStep | fakedisklrucache/src/main/java/com/example/fakedisklrucache/DiskLruCache.kt:163-168 | one loop turn: evicting the eldest entry and then the rest gives the same result as evicting all |
| DiskLru.EvictTakesLeastRecent | fakedisklrucache/src/main/java/com/example/fakedisklrucache/DiskLruCache.kt:159-170 | eviction removes a prefix of the access order (least recent first), deletes exactly those files, journals one `REMOVE` per key in that order, subtracts exactly their sizes, keeps all other entries, and each eviction happened while `currentSize` was above the maximum |
| DiskLru.EvictWithinMax | fakedisklrucache/src/main/java/com/example/fakedisklrucache/DiskLruCache.kt:160 | eviction changes nothing while `currentSize` is within the maximum |
| DiskLru.PutSpec | fakedisklrucache/src/main/java/com/example/fakedisklrucache/DiskLruCache.kt:91-118 | a put keeps the index consistent whatever the write outcome |
| DiskLru.PutWrites | fakedisklrucache/src/main/java/com/example/fakedisklrucache/DiskLruCache.kt:96-109 | a successful put journals `DIRTY` then `CLEAN k size` then the evictions' `REMOVE` lines, adds the size without subtracting an old one, makes the key the most recent entry with the written size if it survives, and keeps every other surviving entry as it was |
| DiskLru.PutWithinMax | fakedisklrucache/src/main/java/com/example/fakedisklrucache/DiskLruCache.kt:104-109 | with room to spare a successful put evicts nothing: the entry is recorded as the most recent and the size added |
| DiskLru.PutFailureKeepsIndex | fakedisklrucache/src/main/java/com/example/fakedisklrucache/DiskLruCache.kt:96-117 | a failed compress or rename journals `DIRTY` then `REMOVE`, deletes `k.tmp`, and leaves the index and `currentSize` unchanged |
| DiskLru.PutOverwriteKeepsOldSize | fakedisklrucache/src/main/java/com/example/fakedisklrucache/DiskLruCache.kt:106-107 | overwriting a key makes `currentSize` exceed the sum of the entry sizes by the old size |
| DiskLru.GetAbsent | fakedisklrucache/src/main/java/com/example/fakedisklrucache/DiskLruCache.kt:123-124 | `get` of an absent key misses and changes nothing |
| DiskLru.GetPresent | fakedisklrucache/src/main/java/com/example/fakedisklrucache/DiskLruCache.kt:123-126 | `get` of a present key makes it the most recent whatever the decode does; a decoded bitmap is returned unchanged in state, a decode exception deletes the file and journals `REMOVE` but keeps the entry and size, null is a miss |
| DiskLru.DecodeExceptionOrphansEntry | fakedisklrucache/src/main/java/com/example/fakedisklrucache/DiskLruCache.kt:172-181 | after a decode exception the index still holds the key but its file is gone |
| DiskLru.RemoveAbsent | fakedisklrucache/src/main/java/com/example/fakedisklrucache/DiskLruCache.kt:139 | `remove` of an absent key is a no-op without a journal line |
| DiskLru.RemovePresent | fakedisklrucache/src/main/java/com/example/fakedisklrucache/DiskLruCache.kt:138-143 | `remove` of a present key drops it, subtracts exactly its size, deletes its file and journals `REMOVE k` |
| DiskLru.ClearDeletesIndexed | fakedisklrucache/src/main/java/com/example/fakedisklrucache/DiskLruCache.kt:148-154 | after `clear` the index is empty, the size 0, the journal empty, exactly the indexed files are deleted and other files are untouched |
| DiskLru.EvictKeepsFilesBacked | fakedisklrucache/src/main/java/com/example/fakedisklrucache/DiskLruCache.kt:159-170 | eviction keeps every remaining entry backed by its file |
| DiskLru.OperationsKeepFilesBacked | fakedisklrucache/src/main/java/com/example/fakedisklrucache/DiskLruCache.kt:91-154 | `put`, `remove`, `clear` and a non-throwing `get` keep every entry backed by its file; for `put` this needs `key.tmp` not to be an indexed key itself, since a `put` deletes `key.tmp` (`DiskCache` keys are 32 hex digits, so this never arises through it) |
| DiskLru.ReplayClean | fakedisklrucache/src/main/java/com/example/fakedisklrucache/DiskLruCache.kt:45-56 | a replayed `CLEAN` installs the entry as the most recent, adds its size and unmarks the key exactly when the file exists; otherwise nothing changes |
| DiskLru.ReplayRemove | fakedisklrucache/src/main/java/com/example/fakedisklrucache/DiskLruCache.kt:58-64 | a replayed `REMOVE` drops the entry, deletes the file and unmarks the key but leaves the size as it was |
| DiskLru.ReplayCleanTwice | fakedisklrucache/src/main/java/com/example/fakedisklrucache/DiskLruCache.kt:51-52 | the same `CLEAN` line replayed twice leaves one entry but counts its size twice |
| DiskLru.ReplayOnlyDeletes | fakedisklrucache/src/main/java/com/example/fakedisklrucache/DiskLruCache.kt:36-67 | replaying any journal only deletes files; the lengths of the others are untouched |
| DiskLru.ReplayEndsWithRemove | fakedisklrucache/src/main/java/com/example/fakedisklrucache/DiskLruCache.kt:58-64 | a key whose last line is `REMOVE` is in neither the index, the directory nor the dirty set |
| DiskLru.Load | fakedisklrucache/src/main/java/com/example/fakedisklrucache/DiskLruCache.kt:30-78 | loading yields a consistent index |
| DiskLru.LoadOnlyDeletes | fakedisklrucache/src/main/java/com/example/fakedisklrucache/DiskLruCache.kt:30-78 | loading never creates or changes a file |
| DiskLru.LoadDeletesDirty | fakedisklrucache/src/main/java/com/example/fakedisklrucache/DiskLruCache.kt:72-77 | a key still dirty after the replay has its file deleted, and eviction runs last |
| DiskLru.LoadWithoutJournal | fakedisklrucache/src/main/java/com/example/fakedisklrucache/DiskLruCache.kt:31 | without a journal file the index is empty and the directory untouched |
| DiskLru.CleanThenDirtyOrphansEntry | fakedisklrucache/src/main/java/com/example/fakedisklrucache/DiskLruCache.kt:41-75 | a `CLEAN a 5` then `DIRTY a` journal leaves `a` in the index with its file deleted, the journal as it was and no file |
| DiskLru.ReloadDropsOrphanedEntry | fakedisklrucache/src/main/java/com/example/fakedisklrucache/DiskLruCache.kt:30-77 | loading is not idempotent: loading again what the first load of `CLEAN a 5`, `DIRTY a` left drops the entry `a` that the first load kept |
| DiskLru.NoCleanNeverIndexed | fakedisklrucache/src/main/java/com/example/fakedisklrucache/DiskLruCache.kt:48-56 | only a `CLEAN` line puts a key into the replayed index |
| DiskLru.DirtyPersists | fakedisklrucache/src/main/java/com/example/fakedisklrucache/DiskLruCache.kt:41-65 | a key marked by a `DIRTY` line stays marked until a later line names it |
| DiskLru.LoadDropsUncommittedKey | fakedisklrucache/src/main/java/com/example/fakedisklrucache/DiskLruCache.kt:30-77 | a key whose last journal line is `DIRTY` and that no `CLEAN` line names ends with neither an index entry nor a file |
| DiskLru.DiskLruCache.constructor | fakedisklrucache/src/main/java/com/example/fakedisklrucache/DiskLruCache.kt:20-25 | the new cache is in the state the journal replay describes |
| DiskLru.DiskLruCache.LoadJournal | fakedisklrucache/src/main/java/com/example/fakedisklrucache/DiskLruCache.kt:30-78 | the replay loop, the dirty-file clean-up and the final eviction leave the state `Load` computes |
| DiskLru.DiskLruCache.AppendJournal | fakedisklrucache/src/main/java/com/example/fakedisklrucache/DiskLruCache.kt:80-86 | appends exactly one line to the journal |
| DiskLru.DiskLruCache.Put | fakedisklrucache/src/main/java/com/example/fakedisklrucache/DiskLruCache.kt:91-118 | the new state is `PutSpec` of the old one |
| DiskLru.DiskLruCache.Get | fakedisklrucache/src/main/java/com/example/fakedisklrucache/DiskLruCache.kt:123-126 | the new state and the result are `GetSpec` of the old state |
| DiskLru.DiskLruCache.ContainsKey | fakedisklrucache/src/main/java/com/example/fakedisklrucache/DiskLruCache.kt:131-133 | the answer is whether the key is indexed; nothing is modified |
| DiskLru.DiskLruCache.Remove | fakedisklrucache/src/main/java/com/example/fakedisklrucache/DiskLruCache.kt:138-143 | the new state is `RemoveSpec` of the old one |
| DiskLru.DiskLruCache.Clear | fakedisklrucache/src/main/java/com/example/fakedisklrucache/DiskLruCache.kt:148-154 | the new state is `ClearSpec` of the old one |
| DiskLru.DiskLruCache.EvictIfNeeded | fakedisklrucache/src/main/java/com/example/fakedisklrucache/DiskLruCache.kt:159-170 | the iterator loop leaves the state `Evict` computes |
| DiskLru.DiskLruCache.SafeDecode | fakedisklrucache/src/main/java/com/example/fakedisklrucache/DiskLruCache.kt:172-181 | the new state and result are `SafeDecodeSpec` of the old state |
| DiskTier.HexRoundTrip | fakeglide/src/main/java/com/example/fakeglide/cache/DiskCache.kt:50 | the base-16 rendering of a number reads back as that number |
| DiskTier.HashKeyShape | fakeglide/src/main/java/com/example/fakeglide/cache/DiskCache.kt:47-51 | the disk key is exactly 32 lowercase hex digits and reads back, in base 16, as the digest taken as an unsigned big-endian number |
| DiskTier.DigestValueInjective | fakeglide/src/main/java/com/example/fakeglide/cache/DiskCache.kt:50 | two 16-byte digests with the same unsigned value are equal |
| DiskTier.HashKeyInjective | fakeglide/src/main/java/com/example/fakeglide/cache/DiskCache.kt:47-51 | equal disk keys come only from equal digests |
| DiskTier.PutThenGet | fakeglide/src/main/java/com/example/fakeglide/cache/DiskCache.kt:22-32 | put and get of one url address the same hashed entry: a put with room to spare is found by the next get |
| DiskTier.DiskCache.constructor | fakeglide/src/main/java/com/example/fakeglide/cache/DiskCache.kt:17-20 | owns a fresh inner cache loaded from the journal |
| DiskTier.DiskCache.Put | fakeglide/src/main/java/com/example/fakeglide/cache/DiskCache.kt:22-25 | the inner cache's put under the hashed key |
| DiskTier.DiskCache.Get | fakeglide/src/main/java/com/example/fakeglide/cache/DiskCache.kt:27-40 | exactly what the inner get under the hashed key returns and does |
| DiskTier.DiskCache.Clear | fakeglide/src/main/java/com/example/fakeglide/cache/DiskCache.kt:42-44 | exactly the inner clear |
| MemoryTier.SizeOf | fakeglide/src/main/java/com/example/fakeglide/cache/MemoryCache.kt:11-13 | an entry weighs its byte count in whole KB, rounded down |
| MemoryTier.SmallBitmapsAreFree | fakeglide/src/main/java/com/example/fakeglide/cache/MemoryCache.kt:11-13 | a bitmap under 1 KB weighs 0 |
| MemoryTier.PutKeepsWellFormed | fakeglide/src/main/java/com/example/fakeglide/cache/MemoryCache.kt:9-18 | after a put the running size equals the summed KB weights and is within the capacity |
| MemoryTier.GetKeepsWellFormed | fakeglide/src/main/java/com/example/fakeglide/cache/MemoryCache.kt:20-28 | a get keeps the running size equal to the summed weights |
| MemoryTier.ClearKeepsWellFormed | fakeglide/src/main/java/com/example/fakeglide/cache/MemoryCache.kt:30-32 | a clear keeps the running size equal to the summed weights |
| MemoryTier.MemGet | fakeglide/src/main/java/com/example/fakeglide/cache/MemoryCache.kt:20-28 | a get returns the stored value or nothing and changes no value and no size |
| MemoryTier.PutReplaces | fakeglide/src/main/java/com/example/fakeglide/cache/MemoryCache.kt:16-18 | after `put(k, b)` the lookup of k is b or nothing, and it is b whenever b alone fits the capacity |
| MemoryTier.TrimKeepsNewest | fakeglide/src/main/java/com/example/fakeglide/cache/MemoryCache.kt:9-18 | trimming keeps the most recent entry when that entry alone fits |
| MemoryTier.PutKeepsOthers | fakeglide/src/main/java/com/example/fakeglide/cache/MemoryCache.kt:16-18 | a put under another key leaves a key's value as it was or evicts it |
| MemoryTier.ClearEmpties | fakeglide/src/main/java/com/example/fakeglide/cache/MemoryCache.kt:30-32 | after `clear` the map is empty and every lookup misses |
| MemoryTier.GetReturnsLatest | fakeglide/src/main/java/com/example/fakeglide/cache/MemoryCache.kt:16-32 | after any sequence of puts, gets and clears, a key's lookup is nothing or the bitmap most recently put under it since the last clear |
| MemoryTier.MemoryCache.constructor | fakeglide/src/main/java/com/example/fakeglide/cache/MemoryCache.kt:9-14 | an empty cache with the given positive KB capacity |
| MemoryTier.MemoryCache.Put | fakeglide/src/main/java/com/example/fakeglide/cache/MemoryCache.kt:16-18 | the new state is `MemPut` of the old one |
| MemoryTier.MemoryCache.Get | fakeglide/src/main/java/com/example/fakeglide/cache/MemoryCache.kt:20-28 | the new state and result are `MemGet` of the old state |
| MemoryTier.MemoryCache.Clear | fakeglide/src/main/java/com/example/fakeglide/cache/MemoryCache.kt:30-32 | the new state is `MemClear` of the old one |
| MemoryTier.MemoryCache.TrimToSize | fakeglide/src/main/java/com/example/fakeglide/cache/MemoryCache.kt:10 | the eviction loop leaves the state `TrimState` computes |
| Repository.RepoPut | fakeglide/src/main/java/com/example/fakeglide/cache/CacheRepositoryImpl.kt:9-12 | a put writes memory and then disk, and keeps both tiers consistent |
| Repository.RepoGet | fakeglide/src/main/java/com/example/fakeglide/cache/CacheRepositoryImpl.kt:14-16 | a get keeps both tiers consistent |
| Repository.RepoClear | fakeglide/src/main/java/com/example/fakeglide/cache/CacheRepositoryImpl.kt:18-21 | a clear keeps both tiers consistent |
| Repository.MemoryHitSkipsDisk | fakeglide/src/main/java/com/example/fakeglide/cache/CacheRepositoryImpl.kt:15 | a memory hit is returned and the disk tier is not touched |
| Repository.DiskHitPromotes | fakeglide/src/main/java/com/example/fakeglide/cache/CacheRepositoryImpl.kt:15 | on a memory miss the disk answers; a disk hit is put into memory and returned, a double miss writes nothing to memory |
| Repository.PutThenGetBack | fakeglide/src/main/java/com/example/fakeglide/cache/CacheRepositoryImpl.kt:9-15 | a bitmap just put is read back, from memory or else from disk |
| Repository.ClearThenGetMisses | fakeglide/src/main/java/com/example/fakeglide/cache/CacheRepositoryImpl.kt:14-21 | after `clear` every get misses in both tiers and changes nothing |
| Repository.CacheRepositoryImpl.constructor | fakeglide/src/main/java/com/example/fakeglide/cache/CacheRepositoryImpl.kt:5-8 | holds the two tiers given |
| Repository.CacheRepositoryImpl.Put | fakeglide/src/main/java/com/example/fakeglide/cache/CacheRepositoryImpl.kt:9-12 | the new state is `RepoPut` of the old one |
| Repository.CacheRepositoryImpl.Get | fakeglide/src/main/java/com/example/fakeglide/cache/CacheRepositoryImpl.kt:14-16 | the new state and result are `RepoGet` of the old state |
| Repository.CacheRepositoryImpl.Clear | fakeglide/src/main/java/com/example/fakeglide/cache/CacheRepositoryImpl.kt:18-21 | the new state is `RepoClear` of the old one |
| Loader.Keys | fakeglide/src/main/java/com/example/fakeglide/core/ImageLoader.kt:249 | one transformation key per transformation, in order |
| Loader.JoinedEmptyIffNoTransformations | fakeglide/src/main/java/com/example/fakeglide/core/ImageLoader.kt:249-250 | the joined transformation keys are empty exactly when the list is empty |
| Loader.KeyExtendsBaseKey | fakeglide/src/main/java/com/example/fakeglide/core/ImageLoader.kt:245-257 | the key is the base key exactly when there are no transformations, and otherwise the base key, `","` and the keys joined by `"_"` |
| Loader.FinalKeyIsBaseKeyIffNoTransformations | fakeglide/src/main/java/com/example/fakeglide/core/ImageLoader.kt:111-125 | in `load2`, `finalKey == baseKey` exactly when the transformation list is empty |
| Loader.BaseKeyInjective | fakeglide/src/main/java/com/example/fakeglide/core/ImageLoader.kt:251 | equal base keys mean the same url and the same `Int` sizes, whatever the urls contain |
| Loader.BaseKeyDistinguishesSizes | fakeglide/src/main/java/com/example/fakeglide/core/ImageLoader.kt:251 | for one url, equal base keys mean equal requested sizes |
| Loader.CommaInUrlStillDistinct | fakeglide/src/main/java/com/example/fakeglide/core/ImageLoader.kt:251 | a url containing `,` and `x` (`a,1x1` at 2x3) does not collide with `a` at 1x1 |
| Loader.PieceOfPrefix | fakeglide/src/main/java/com/example/fakeglide/core/ImageLoader.kt:249 | a piece without `_` before a `_` (or the end) is recovered as the text up to the first `_` |
| Loader.KeyBeforeSeparator | fakeglide/src/main/java/com/example/fakeglide/core/ImageLoader.kt:249 | a transformation key followed by `_` or the end is fixed by the joined text, when radius texts have no `_` |
| Loader.JoinedKeysInjective | fakeglide/src/main/java/com/example/fakeglide/core/ImageLoader.kt:249 | the `_`-joined transformation keys fix the list of keys, in order, when radius texts have no `_` |
| Loader.GenCacheKeyFixesTransformations | fakeglide/src/main/java/com/example/fakeglide/core/ImageLoader.kt:245-257 | for one url and size, equal cache keys mean the same transformation keys in the same order, so a different kind, radius text or order gives a different key |
| Loader.TransformationOrderMatters | fakeglide/src/main/java/com/example/fakeglide/core/ImageLoader.kt:245-257 | a circle crop then a rounded-corner crop has a different key from the reverse order, for any radius text |
| Loader.AppliedAppend | fakeglide/src/main/java/com/example/fakeglide/core/ImageLoader.kt:162-171 | the transformations apply left to right: applying `xs + ys` is applying xs, then ys |
| Loader.AppliedBase | fakeglide/src/main/java/com/example/fakeglide/core/ImageLoader.kt:162-171 | an empty list returns the input, a single transformation its output |
| Loader.AppliedShape | fakeglide/src/main/java/com/example/fakeglide/core/ImageLoader.kt:162-171 | after at least one transformation the result is mutable ARGB_8888, square after a final circle crop, and of the input size when all are rounded-corner crops |
| Loader.StoreInMemory | fakeglide/src/main/java/com/example/fakeglide/core/ImageLoader.kt:134 | a memory-only store leaves the disk tier untouched |
| Loader.Load2Spec | fakeglide/src/main/java/com/example/fakeglide/core/ImageLoader.kt:108-159 | `load2` keeps both tiers consistent, whether it returns or the fetch throws |
| Loader.LoadSpec | fakeglide/src/main/java/com/example/fakeglide/core/ImageLoader.kt:48-106 | `load` keeps both tiers consistent, whether it returns or the fetch throws |
| Loader.Load2FinalHit | fakeglide/src/main/java/com/example/fakeglide/core/ImageLoader.kt:128 | a hit on the final key is returned as the repository gave it, with no second lookup, fetch or store |
| Loader.Load2TransformsCachedOriginal | fakeglide/src/main/java/com/example/fakeglide/core/ImageLoader.kt:131-136 | with transformations, a base-key hit is transformed and stored under the final key in memory only |
| Loader.Load2FullMiss | fakeglide/src/main/java/com/example/fakeglide/core/ImageLoader.kt:140-158 | on a full miss a throwing fetch lets its exception out and a null fetch returns null, both storing nothing; a fetched bitmap is stored under the base key in both tiers and, with transformations, transformed and stored under the final key in memory |
| Loader.Load2MissWritesNothing | fakeglide/src/main/java/com/example/fakeglide/core/ImageLoader.kt:128-141 | when neither key is cached, a fetch that returns null or throws leaves the cache exactly as it was |
| Loader.Load2ServesAgain | fakeglide/src/main/java/com/example/fakeglide/core/ImageLoader.kt:108-159 | whatever `load2` returns is in memory under the final key, and a second `load2` of the same request returns it whatever the world answers, if it fits the memory capacity |
| Loader.LoadMiss | fakeglide/src/main/java/com/example/fakeglide/core/ImageLoader.kt:76-104 | on a base-key miss `load` lets a fetch's exception out, returns null for a null fetch, and otherwise stores the fetched bitmap in both tiers and the transformed one in memory |
| Loader.LoadRetransformsEveryHit | fakeglide/src/main/java/com/example/fakeglide/core/ImageLoader.kt:51-99 | `load` never consults the transformed key, and transforms and stores a cached original again on every hit |
| Loader.ImageLoader.constructor | fakeglide/src/main/java/com/example/fakeglide/core/ImageLoader.kt:37-40 | a memory tier of `memoryCacheSize` KB and a disk tier of `diskCacheSize` bytes over the loaded journal |
| Loader.ImageLoader.ApplyTransformations | fakeglide/src/main/java/com/example/fakeglide/core/ImageLoader.kt:162-171 | the `forEach` fold returns the left-to-right application of the list |
| Loader.ImageLoader.Load2 | fakeglide/src/main/java/com/example/fakeglide/core/ImageLoader.kt:108-159 | the new state and the result (a bitmap, null, or the fetch's exception) are `Load2Spec` of the old state |
| Loader.ImageLoader.Load | fakeglide/src/main/java/com/example/fakeglide/core/ImageLoader.kt:48-106 | the new state and the result (a bitmap, null, or the fetch's exception) are `LoadSpec` of the old state |
| Sampling.PowerOfTwoGap | fakeglide/src/main/java/com/example/fakeglide/core/ImageLoader.kt:237-238 | a power of two larger than another is at least its double |
| Sampling.SampleSizeUnique | fakeglide/src/main/java/com/example/fakeglide/core/ImageLoader.kt:228-242 | at most one value meets the sample-size characterisation |
| Sampling.FitsExtend | fakeglide/src/main/java/com/example/fakeglide/core/ImageLoader.kt:237 | passing the guard at s extends "every smaller power of two passes" to 2s |
| Sampling.GuardBoundsFactor | fakeglide/src/main/java/com/example/fakeglide/core/ImageLoader.kt:237 | with a positive request a 32-bit image passes the guard only below 2^30, so the factor never wraps |
| Sampling.GuardAlwaysPasses | fakeglide/src/main/java/com/example/fakeglide/core/ImageLoader.kt:232-237 | with no positive request a non-negative image passes the guard at every positive factor and at `Int.MIN_VALUE` |
| Sampling.CalculateInSampleSize | fakeglide/src/main/java/com/example/fakeglide/core/ImageLoader.kt:221-243 | with a positive requested dimension: a power of two at least 1, 1 if the image is not larger than the request, otherwise the first factor failing the guard with every smaller power of two passing; 1 with no positive request |
| Sampling.DoubleStep32 | fakeglide/src/main/java/com/example/fakeglide/core/ImageLoader.kt:238 | `inSampleSize *= 2` on `Int` goes from 2^k to the 32-bit wrap of 2^(k+1) |
| Sampling.CalculateInSampleSizeAsWritten | fakeglide/src/main/java/com/example/fakeglide/core/ImageLoader.kt:221-243 | the loop as written over `Int`: the factor above for a positive request, 1 for an image within the request, and a division by zero for a larger image with both requested dimensions <= 0 |
| Sampling.ZeroRequestDividesByZero | fakeglide/src/main/java/com/example/fakeglide/core/ImageLoader.kt:221-243 | the default 0x0 request on a 400x400 image divides by zero |
| Requests.RequestBuilder.constructor | fakeglide/src/main/java/com/example/fakeglide/request/RequestBuilder.kt:7-11 | a fresh builder has size 0x0 and no transformations |
| Requests.RequestBuilder.Override | fakeglide/src/main/java/com/example/fakeglide/request/RequestBuilder.kt:13-17 | sets both dimensions, keeps the transformations, returns the same builder |
| Requests.RequestBuilder.CircleCrop | fakeglide/src/main/java/com/example/fakeglide/request/RequestBuilder.kt:19-22 | appends one circle crop at the end, keeps the size, returns the same builder |
| Requests.RequestBuilder.RoundedCornerCrop | fakeglide/src/main/java/com/example/fakeglide/request/RequestBuilder.kt:24-27 | appends one rounded-corner crop of that radius at the end, keeps the size, returns the same builder |
| Requests.RequestBuilder.Transform | fakeglide/src/main/java/com/example/fakeglide/request/RequestBuilder.kt:29-32 | appends the given transformation at the end, keeps the size, returns the same builder |
| Requests.RequestBuilder.Build | fakeglide/src/main/java/com/example/fakeglide/request/RequestBuilder.kt:34-41 | the request carries the builder's url, size and list, and the builder is not modified |
| Requests.ChainBuilds | fakeglide/src/main/java/com/example/fakeglide/request/RequestBuilder.kt:7-41 | after any chain of calls the url is kept and the transformations are exactly those appended in call order; a chain without `override` keeps the size (0x0 on a fresh builder), and a chain ending in `override` takes its size |
| Requests.LastOverrideWins | fakeglide/src/main/java/com/example/fakeglide/request/RequestBuilder.kt:13-32 | the last `override` in a chain fixes the size, whatever crop or transform calls follow it |
| Requests.RunChain | fakeglide/src/main/java/com/example/fakeglide/request/RequestBuilder.kt:13-41 | running a chain on a builder and building yields the request that chain describes |
| SizeResolver.TakeIfPositive | fakeglide/src/main/java/com/example/fakeglide/util/ComposeSizeResolver.kt:20 | `takeIf { it > 0 }` keeps exactly positive values |
| SizeResolver.Resolve | fakeglide/src/main/java/com/example/fakeglide/util/ComposeSizeResolver.kt:19-27 | each dimension is the explicit request whatever its sign, else the layout size if positive, else the screen size |
| SizeResolver.ResolveIndependent | fakeglide/src/main/java/com/example/fakeglide/util/ComposeSizeResolver.kt:19-25 | the width does not depend on the height inputs and the height not on the width inputs |
| SizeResolver.ResolveKeepsNonPositiveRequest | fakeglide/src/main/java/com/example/fakeglide/util/ComposeSizeResolver.kt:19-25 | an explicit zero or negative request is returned unchanged |
| Transformations.Key | fakeglide/src/main/java/com/example/fakeglide/transformation/CircleCrop.kt:9 | the circle crop's key is `CIRCLE_CROP`; a rounded-corner crop's is `ROUNDED_CORNER_CROP_` and the radius's text |
| Transformations.KeysDistinguish | fakeglide/src/main/java/com/example/fakeglide/transformation/RoundedCornerCrop.kt:8 | equal keys mean the same kind of transformation, and for rounded-corner crops equal radius texts |
| Transformations.CropSquare | fakeglide/src/main/java/com/example/fakeglide/transformation/CircleCrop.kt:12-15 | the side is min(w, h), one origin coordinate is 0, the square lies within the source, and the origin is `((w - side)/2, (h - side)/2)` |
| Transformations.CropSquareCentred | fakeglide/src/main/java/com/example/fakeglide/transformation/CircleCrop.kt:14-15 | the margins on either side of the square differ by at most one pixel |
| Transformations.CreateSubset | fakeglide/src/main/java/com/example/fakeglide/transformation/CircleCrop.kt:17 | `createBitmap(source, x, y, w, h)` returns the source itself exactly when it is immutable and the region is all of it |
| Transformations.CircleCropAsWritten | fakeglide/src/main/java/com/example/fakeglide/transformation/CircleCrop.kt:11-33 | as written, the circle crop recycles its own input exactly when the input is an immutable square |
| Transformations.CircleCropRecyclesDecodedSquare | fakeglide/src/main/java/com/example/fakeglide/transformation/CircleCrop.kt:17-30 | an immutable 300x300 decoded bitmap is recycled by its own circle crop |
| Transformations.Transform | fakeglide/src/main/java/com/example/fakeglide/transformation/CircleCrop.kt:11-33 | the output is a new mutable ARGB_8888 bitmap: a square of side min(w, h) for the circle crop, the input's size for the rounded-corner crop; the input is never recycled, and only a subset the circle crop made is |
| Transformations.CircleCropSameOutput | fakeglide/src/main/java/com/example/fakeglide/transformation/CircleCrop.kt:11-33 | the corrected circle crop draws the same output and differs only in not recycling the input |
| Strings.ParseLongOfDecimal | fakedisklrucache/src/main/java/com/example/fakedisklrucache/DiskLruCache.kt:48 | every `Long` rendered by `toString` reads back through `toLongOrNull` as itself |
| Strings.IntToDecimalInjective | fakeglide/src/main/java/com/example/fakeglide/core/ImageLoader.kt:251 | different `Long`s render as different decimal strings |
| Strings.SplitJoin | fakedisklrucache/src/main/java/com/example/fakedisklrucache/DiskLruCache.kt:37 | `split` on a single-character delimiter undoes joining pieces that do not contain it |
| Strings.PadStart | fakeglide/src/main/java/com/example/fakeglide/cache/DiskCache.kt:50 | `padStart` pads on the left with the pad character up to the length and keeps the string as its suffix |
| Numerics.TruncDiv | fakeglide/src/main/java/com/example/fakeglide/core/ImageLoader.kt:232-237 | Kotlin integer division truncates toward zero |
| Numerics.Wrap32 | fakeglide/src/main/java/com/example/fakeglide/cache/CacheConfig.kt:6-8 | `toInt()` wraps modulo 2^32 into the `Int` range and keeps values already in range |

## Left out

- Concurrency is not modelled. That covers `Mutex.withLock`, `withContext(Dispatchers.IO)`, the rethrow of coroutine cancellation, and the `@Volatile`/`synchronized` singleton `getInstance`. Every operation is atomic and sequential.
- I/O is not modelled. That covers the OkHttp transport, temp-file streaming and timeouts in `fetchFromNetwork`, PNG compression, `BitmapFactory` decoding, and the Canvas/Paint/Shader drawing. Each is an outcome passed in, or an opaque pixel description. The fetch's use of `calculateInSampleSize` and `RGB_565` is not connected to the fetched bitmap. A fetch that throws, whether from OkHttp or from the division by zero in `calculateInSampleSize`, is the outcome `FetchThrew`, and `load`/`load2` then end with `Threw`.
- MD5 (RFC 1321, section 3) is not modelled, nor is `String.toByteArray`. The digest is a function parameter returning 16 bytes.
- `Float.toString` of the radius is not modelled. It is a function parameter.
- The journal file is not modelled at the byte level. It is a sequence of lines, and keys containing spaces or line breaks are not modelled. An `IOException` while reading or appending the journal is not modelled.
- `Strings.ParseLong`, `DiskLru.UnparsableSizeIsZero`: only the ASCII digits `0`-`9` are digits here. Kotlin's `toLongOrNull` goes through `Character.digit` and also reads other Unicode decimal digits. So a journal size written in, say, Arabic-Indic digits replays as its value in the source but as 0 in the model.
- `DiskLru.DiskLruCache.constructor`: `cacheDir.mkdirs()` is not modelled. The directory is the map of files given to the constructor.
- The cache directory under `context.cacheDir` is not modelled, because there is no Android `Context`.
- `MemoryTier.MemoryCache.constructor`, `Loader.ImageLoader.constructor`: require a positive memory capacity, because the platform `LruCache` throws for any other. The case that throws is not modelled.
- The platform `LruCache` checks that `size` is non-negative and zero on an empty map. The model proves both always hold (`size` is always the sum of the weights), so the `IllegalStateException` it would throw is not modelled.
- `Bitmap.getByteCount` is width × bytes per pixel × height, in unbounded integers. Its 32-bit overflow for huge bitmaps is not modelled.
- `DiskLru.ReplayLine`, `DiskLru.ReplayAll`, `DiskLru.Load`, `DiskLru.PutSpec`, `DiskLru.Written`, `DiskLru.RemoveSpec`, `DiskLru.Evict`, `DiskLru.ReplayCleanTwice`, `DiskLru.PutOverwriteKeepsOldSize`, `DiskLru.EvictTakesLeastRecent`: `currentSize` is an unbounded integer here. In the source it is a `Long`, and its `+=`/`-=` wrap at 2^63. Each journal size fits a `Long`, but nothing bounds their sum. So the model's eviction differs from the source only when sizes sum past 2^63: two `CLEAN` lines of size 2^63-1 wrap the source's `currentSize` to -2, which stops eviction, while the model evicts. That wrap is not modelled.
- `Config.MemoryCacheTiers`, `Config.MemoryCacheBounded`, `Config.MemoryCacheMonotone`: these hold only below a heap of 2^33 KB. There the narrowing `toInt()` wraps, as `Config.MemoryCacheWrapsAtBound` shows.
- `Loader.GenCacheKeyFixesTransformations`, `Loader.JoinedKeysInjective`, `Loader.KeyBeforeSeparator`: these require radius texts without `_`, which `Float.toString` never produces. Without that, a radius text such as `1.0_CIRCLE_CROP` would make two different lists share a key.
- `Loader.Load2Spec`, `Loader.LoadSpec`: the transformations are the corrected `Transformations.Transform`, and only their output bitmap is kept. So the recycling described in the second finding never shows in the modelled cache state. That includes the as-written recycling of the network bitmap just cached under the base key. Bitmaps are values here, so a recycled bitmap held by the cache cannot be represented.
- Logging and the `System.currentTimeMillis` timings in `MemoryCache.get`, `DiskCache.get` and `fetchFromNetwork` are not modelled, because they have no effect on the result.
- `Runtime.maxMemory()` and `LocalConfiguration` screen sizes are not modelled. They are parameters.
- `build` takes a snapshot of the transformation list (`toList()`). In the model `ImageRequest` is an immutable value, so later appends to the builder cannot reach a request already built. No separate lemma states this.
- The UI and benchmark code has no cache or key logic and is not part of this model: `MainActivity`, `FakeGlideImage`, `TimeFGI`, `TimeGlideImage` and the demo screens.

## Findings

| source | as written | input that shows it | evidently intended | confidence | as-written member | corrected member |
|---|---|---|---|---|---|---|
| fakeglide/src/main/java/com/example/fakeglide/core/ImageLoader.kt:221-243 | with both requested dimensions <= 0 and an image larger than that, the guard `halfHeight / inSampleSize >= reqHeight && halfWidth / inSampleSize >= reqWidth` never fails; `inSampleSize` doubles past 2^30, wraps to `Int.MIN_VALUE` and then to 0, and the next guard divides by zero (`ArithmeticException`). It is reached by a 0x0 request that misses both cache tiers, so that `fetchFromNetwork` runs. A 0x0 request comes from a builder used without `override`, whose default is 0x0, or from an explicit size of 0 (`SizeResolver.ResolveKeepsNonPositiveRequest`). The exception escapes `load`/`load2` as `Loader.LoadResult.Threw` | height 400, width 400, reqWidth 0, reqHeight 0 | a power-of-two factor; with no positive request, decode at full size (factor 1) | not executed | Sampling.CalculateInSampleSizeAsWritten, Sampling.ZeroRequestDividesByZero | Sampling.CalculateInSampleSize |
| fakeglide/src/main/java/com/example/fakeglide/transformation/CircleCrop.kt:17-30 | `Bitmap.createBitmap(bitmap, x, y, size, size)` returns the source object itself when the source is immutable and the region is all of it; `squared.recycle()` then recycles the caller's input. In `load2` that input is the network bitmap just cached under the base key (decoded immutable), so the cache then holds a recycled bitmap | an immutable 300x300 decoded bitmap, circle-cropped | recycle the cropped subset only when it is a new bitmap | not executed | Transformations.CircleCropAsWritten, Transformations.CircleCropRecyclesDecodedSquare | Transformations.Transform |
