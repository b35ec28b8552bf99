/**
 * `MemoryCache`: the memory tier, an `android.util.LruCache` from key to bitmap whose
 * entries are weighed in KB (`byteCount / 1024`) against a capacity in the same unit. The
 * platform cache's behaviour (put, get, `trimToSize`, `evictAll`) is modelled with it.
 */
module MemoryTier {
  import opened Wrappers
  import opened Graphics
  import opened AccessOrder

  /** `sizeOf`: the bitmap's bytes in whole KB, rounded down. */
  function SizeOf(b: Bitmap): (kb: int)
    ensures kb >= 0 && kb * 1024 <= ByteCount(b) < (kb + 1) * 1024
  {
    ByteCount(b) / 1024
  }

  /** Bitmaps under 1 KB weigh nothing. */
  lemma SmallBitmapsAreFree(b: Bitmap)
    requires ByteCount(b) < 1024
    ensures SizeOf(b) == 0
  {
  }

  /** The platform cache's content: the access-ordered map and its running `size`. */
  datatype MemState = MemState(entries: LinkedMap<Bitmap>, size: int)

  /** `size` is the summed weight of the entries and within the capacity. */
  ghost predicate MemWellFormed(s: MemState, maxSize: int) {
    && Valid(s.entries)
    && s.size == Cost(s.entries.order, s.entries.values, SizeOf)
    && s.size <= maxSize
  }

  function Lookup(s: MemState, key: string): Option<Bitmap> {
    if key in s.entries.values then Some(s.entries.values[key]) else None
  }

  /** `trimToSize(max)`: least recently used entries go until the size fits. */
  function TrimState(s: MemState, max: int): (r: MemState)
    requires Valid(s.entries)
    ensures Valid(r.entries) && (r.size <= max || r.entries.order == [])
  {
    var t := Trim(s.entries, s.size, max, SizeOf);
    MemState(t.rest, t.total)
  }

  /** `put`: the new weight is added, a replaced value's weight subtracted, the key made most recent, then the cache trimmed. */
  function MemPut(s: MemState, key: string, b: Bitmap, maxSize: int): (r: MemState)
    requires Valid(s.entries)
    ensures Valid(r.entries)
  {
    var size := s.size + SizeOf(b) - (if key in s.entries.values then SizeOf(s.entries.values[key]) else 0);
    TrimState(MemState(Put(s.entries, key, b), size), maxSize)
  }

  /** `get`: a hit becomes the most recent entry; a miss changes nothing. */
  function MemGet(s: MemState, key: string): (r: (MemState, Option<Bitmap>))
    requires Valid(s.entries)
    ensures r.1 == Lookup(s, key) && r.0.entries.values == s.entries.values && r.0.size == s.size
    ensures Valid(r.0.entries)
  {
    (MemState(Touch(s.entries, key), s.size), Lookup(s, key))
  }

  /** `evictAll`, which is `trimToSize(-1)`. */
  function MemClear(s: MemState): (r: MemState)
    requires Valid(s.entries)
    ensures Valid(r.entries)
  {
    TrimState(s, -1)
  }

  lemma TrimKeepsWellFormed(s: MemState, max: int, maxSize: int)
    requires Valid(s.entries) && s.size == Cost(s.entries.order, s.entries.values, SizeOf)
    requires max <= maxSize && 0 <= maxSize
    ensures MemWellFormed(TrimState(s, max), maxSize)
  {
    TrimKeepsCost(s.entries, s.size, max, SizeOf);
  }

  /** Every operation keeps `size` equal to the entries' weight and within the capacity. */
  lemma PutKeepsWellFormed(s: MemState, key: string, b: Bitmap, maxSize: int)
    requires MemWellFormed(s, maxSize) && maxSize > 0
    ensures MemWellFormed(MemPut(s, key, b, maxSize), maxSize)
  {
    CostPut(s.entries, key, b, SizeOf);
    var size := s.size + SizeOf(b) - (if key in s.entries.values then SizeOf(s.entries.values[key]) else 0);
    TrimKeepsWellFormed(MemState(Put(s.entries, key, b), size), maxSize, maxSize);
  }

  lemma GetKeepsWellFormed(s: MemState, key: string, maxSize: int)
    requires MemWellFormed(s, maxSize)
    ensures MemWellFormed(MemGet(s, key).0, maxSize)
  {
    if key in s.entries.values {
      var w := Without(s.entries.order, key);
      CostAppend(w, [key], s.entries.values, SizeOf);
      CostWithout(s.entries.order, s.entries.values, key, SizeOf);
    }
  }

  lemma ClearKeepsWellFormed(s: MemState, maxSize: int)
    requires MemWellFormed(s, maxSize) && maxSize > 0
    ensures MemWellFormed(MemClear(s), maxSize)
  {
    TrimKeepsWellFormed(s, -1, maxSize);
  }

  /** Weights are never negative, so neither is their sum. */
  lemma {:induction false} CostNonNegative(keys: seq<string>, values: map<string, Bitmap>)
    ensures Cost(keys, values, SizeOf) >= 0
  {
    if keys != [] {
      CostNonNegative(keys[1..], values);
    }
  }

  /**
   * After `put(k, b)` a lookup of `k` finds `b` or nothing (the previous value is
   * replaced either way), and it finds `b` whenever `b` alone fits the capacity.
   */
  lemma PutReplaces(s: MemState, key: string, b: Bitmap, maxSize: int)
    requires MemWellFormed(s, maxSize)
    ensures Lookup(MemPut(s, key, b, maxSize), key) in {None, Some(b)}
    ensures SizeOf(b) <= maxSize ==> Lookup(MemPut(s, key, b, maxSize), key) == Some(b)
  {
    var m := Put(s.entries, key, b);
    var size := s.size + SizeOf(b) - (if key in s.entries.values then SizeOf(s.entries.values[key]) else 0);
    TrimTakesPrefix(m, size, maxSize, SizeOf);
    if SizeOf(b) <= maxSize {
      CostPut(s.entries, key, b, SizeOf);
      TrimKeepsNewest(m, size, maxSize);
    }
  }

  /** Trimming a cache whose total is its weight keeps the newest entry when that entry alone fits. */
  lemma TrimKeepsNewest(m: LinkedMap<Bitmap>, total: int, max: int)
    requires Valid(m) && m.order != [] && total == Cost(m.order, m.values, SizeOf)
    requires m.order[|m.order| - 1] in m.values && SizeOf(m.values[m.order[|m.order| - 1]]) <= max
    ensures m.order[|m.order| - 1] in Trim(m, total, max, SizeOf).rest.values
  {
    var n := |m.order|;
    var newest := m.order[n - 1];
    var t := Trim(m, total, max, SizeOf);
    TrimTakesPrefix(m, total, max, SizeOf);
    KeysMatchIn(t.rest.order, t.rest.values, newest);
    if t.rest.order != [] {
      assert t.rest.order[|t.rest.order| - 1] == newest;
    } else {
      assert t.evicted == m.order;
      assert m.order == m.order[..n - 1] + [newest];
      CostAppend(m.order[..n - 1], [newest], m.values, SizeOf);
      TrimStopsEarly(m, total, max, SizeOf, n - 1);
    }
  }

  /** A `put` under another key leaves a key's value as it was, or evicts it. */
  lemma PutKeepsOthers(s: MemState, key: string, b: Bitmap, other: string, maxSize: int)
    requires MemWellFormed(s, maxSize) && other != key
    ensures Lookup(MemPut(s, key, b, maxSize), other) in {None, Lookup(s, other)}
  {
    var m := Put(s.entries, key, b);
    var size := s.size + SizeOf(b) - (if key in s.entries.values then SizeOf(s.entries.values[key]) else 0);
    var t := Trim(m, size, maxSize, SizeOf);
    assert MemPut(s, key, b, maxSize) == MemState(t.rest, t.total);
    TrimTakesPrefix(m, size, maxSize, SizeOf);
    if other in t.rest.values {
      assert t.rest.values[other] == m.values[other] == s.entries.values[other];
    }
  }

  /** After `clear` every lookup misses. */
  lemma ClearEmpties(s: MemState, key: string, maxSize: int)
    requires MemWellFormed(s, maxSize)
    ensures MemClear(s).entries.values == map[] && Lookup(MemClear(s), key) == None
  {
    TrimKeepsCost(s.entries, s.size, -1, SizeOf);
    var r := MemClear(s);
    CostNonNegative(r.entries.order, r.entries.values);
    KeysAreOrder(r.entries);
  }

  /** The calls a caller makes on the memory tier. */
  datatype MemOp = PutOp(key: string, bitmap: Bitmap) | GetOp(key: string) | ClearOp

  function Run(s: MemState, ops: seq<MemOp>, maxSize: int): (r: MemState)
    requires Valid(s.entries)
    ensures Valid(r.entries)
    decreases |ops|
  {
    if ops == [] then s
    else
      var s' := Run(s, ops[..|ops| - 1], maxSize);
      match ops[|ops| - 1]
      case PutOp(k, b) => MemPut(s', k, b, maxSize)
      case GetOp(k) => MemGet(s', k).0
      case ClearOp => MemClear(s')
  }

  /** The bitmap most recently put under `key` since the last `clear` (or `start` if neither happened). */
  function LastPut(start: Option<Bitmap>, ops: seq<MemOp>, key: string): Option<Bitmap>
    decreases |ops|
  {
    if ops == [] then start
    else
      match ops[|ops| - 1]
      case PutOp(k, b) => if k == key then Some(b) else LastPut(start, ops[..|ops| - 1], key)
      case GetOp(_) => LastPut(start, ops[..|ops| - 1], key)
      case ClearOp => None
  }

  /** `get(k)` returns nothing or the bitmap most recently put under `k`; never an older one, never one cleared. */
  lemma {:induction false} GetReturnsLatest(s: MemState, ops: seq<MemOp>, key: string, maxSize: int)
    requires MemWellFormed(s, maxSize) && maxSize > 0
    ensures MemWellFormed(Run(s, ops, maxSize), maxSize)
    ensures Lookup(Run(s, ops, maxSize), key) in {None, LastPut(Lookup(s, key), ops, key)}
    decreases |ops|
  {
    if ops != [] {
      var prefix := ops[..|ops| - 1];
      GetReturnsLatest(s, prefix, key, maxSize);
      var s' := Run(s, prefix, maxSize);
      match ops[|ops| - 1]
      case PutOp(k, b) =>
        PutKeepsWellFormed(s', k, b, maxSize);
        if k == key {
          PutReplaces(s', k, b, maxSize);
        } else {
          PutKeepsOthers(s', k, b, key, maxSize);
        }
      case GetOp(k) =>
        GetKeepsWellFormed(s', k, maxSize);
      case ClearOp =>
        ClearKeepsWellFormed(s', maxSize);
        ClearEmpties(s', key, maxSize);
    }
  }

  /** The memory tier over the platform cache. */
  class MemoryCache {
    const maxSize: int
    var entries: LinkedMap<Bitmap>
    var size: int

    function State(): MemState
      reads this
    {
      MemState(entries, size)
    }

    ghost predicate Valid()
      reads this
    {
      MemWellFormed(State(), maxSize) && maxSize > 0
    }

    /** The platform cache refuses a capacity that is not positive. */
    constructor (maxSize: int)
      requires maxSize > 0
      ensures Valid() && this.maxSize == maxSize && entries.values == map[]
    {
      this.maxSize := maxSize;
      entries := Empty();
      size := 0;
    }

    method Put(url: string, bitmap: Bitmap)
      requires Valid()
      modifies this
      ensures Valid() && State() == MemPut(old(State()), url, bitmap, maxSize)
    {
      PutKeepsWellFormed(State(), url, bitmap, maxSize);
      size := size + SizeOf(bitmap);
      if url in entries.values {
        size := size - SizeOf(entries.values[url]);
      }
      entries := AccessOrder.Put(entries, url, bitmap);
      TrimToSize(maxSize);
    }

    method Get(url: string) returns (bitmap: Option<Bitmap>)
      requires Valid()
      modifies this
      ensures Valid() && (State(), bitmap) == MemGet(old(State()), url)
    {
      GetKeepsWellFormed(State(), url, maxSize);
      if url in entries.values {
        bitmap := Some(entries.values[url]);
        entries := Touch(entries, url);
      } else {
        bitmap := None;
      }
    }

    method Clear()
      requires Valid()
      modifies this
      ensures Valid() && State() == MemClear(old(State()))
    {
      ClearKeepsWellFormed(State(), maxSize);
      TrimToSize(-1);
    }

    /** The platform's `trimToSize`: drop the eldest entry while the size is above `max`. */
    method TrimToSize(max: int)
      requires AccessOrder.Valid(entries)
      modifies this`entries, this`size
      ensures State() == TrimState(old(State()), max)
    {
      while size > max && entries.order != []
        invariant AccessOrder.Valid(entries)
        invariant TrimState(State(), max) == TrimState(old(State()), max)
        decreases |entries.order|
      {
        var eldest := entries.order[0];
        size := size - SizeOf(entries.values[eldest]);
        entries := RemoveEldest(entries);
      }
    }
  }
}
