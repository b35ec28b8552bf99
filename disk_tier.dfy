/**
 * `DiskCache`: the disk tier of the image cache. It stores every bitmap in a
 * `DiskLruCache` under the MD5 digest of its key (RFC 1321, section 3), rendered as 32
 * lowercase hexadecimal digits. The digest function is a parameter.
 */
module DiskTier {
  import opened Wrappers
  import opened Strings
  import opened Graphics
  import opened DiskLru

  newtype byte = x: int | 0 <= x < 256

  /** An MD5 digest: 16 bytes. */
  type Digest = d: seq<byte> | |d| == 16 witness seq(16, _ => 0 as byte)

  /** `BigInteger(1, bytes)`: the bytes as an unsigned big-endian number. */
  function DigestValue(d: seq<byte>): nat {
    if d == [] then 0 else DigestValue(d[..|d| - 1]) * 256 + d[|d| - 1] as nat
  }

  predicate IsHexDigit(c: char) { '0' <= c <= '9' || 'a' <= c <= 'f' }

  function HexDigit(d: nat): (c: char)
    requires d < 16
    ensures IsHexDigit(c)
  {
    if d < 10 then (d + '0' as int) as char else (d - 10 + 'a' as int) as char
  }

  function HexDigitValue(c: char): (d: nat)
    requires IsHexDigit(c)
    ensures d < 16 && HexDigit(d) == c
    ensures forall e :: 0 <= e < 16 && HexDigit(e) == c ==> e == d
  {
    if c <= '9' then c as int - '0' as int else c as int - 'a' as int + 10
  }

  /** `BigInteger.toString(16)` of a non-negative number: lowercase digits, no leading zeros. */
  function ToHex(n: nat): (s: string)
    ensures |s| >= 1 && forall i :: 0 <= i < |s| ==> IsHexDigit(s[i])
  {
    if n < 16 then [HexDigit(n)] else ToHex(n / 16) + [HexDigit(n % 16)]
  }

  /** The number a string of hexadecimal digits denotes. */
  function HexValue(s: string): nat
    requires forall i :: 0 <= i < |s| ==> IsHexDigit(s[i])
  {
    if s == [] then 0 else HexValue(s[..|s| - 1]) * 16 + HexDigitValue(s[|s| - 1])
  }

  /** `hashKeyForDisk`: the digest of the key as hex, left-padded with `0` to 32 characters. */
  function HashKeyForDisk(key: string, md5: string -> Digest): string {
    PadStart(ToHex(DigestValue(md5(key))), 32, '0')
  }

  function Pow(b: nat, k: nat): nat {
    if k == 0 then 1 else b * Pow(b, k - 1)
  }

  lemma {:induction false} DigestValueBound(d: seq<byte>)
    ensures DigestValue(d) < Pow(256, |d|)
  {
    if d != [] {
      DigestValueBound(d[..|d| - 1]);
      assert DigestValue(d) <= (Pow(256, |d| - 1) - 1) * 256 + 255;
    }
  }

  lemma {:induction false} PowSquare(k: nat)
    ensures Pow(256, k) == Pow(16, 2 * k)
  {
    if k > 0 {
      PowSquare(k - 1);
      assert Pow(16, 2 * k) == 16 * (16 * Pow(16, 2 * k - 2));
    }
  }

  lemma {:induction false} HexRoundTrip(n: nat)
    ensures HexValue(ToHex(n)) == n
  {
    if n >= 16 {
      HexRoundTrip(n / 16);
      var s := ToHex(n);
      assert s[..|s| - 1] == ToHex(n / 16);
    }
  }

  /** A number below `16^k` needs at most `k` hex digits. */
  lemma {:induction false} ToHexLength(n: nat, k: nat)
    requires k >= 1 && n < Pow(16, k)
    ensures |ToHex(n)| <= k
  {
    if n >= 16 {
      assert n / 16 < Pow(16, k - 1);
      ToHexLength(n / 16, k - 1);
    }
  }

  /** Leading zeros do not change the value. */
  lemma {:induction false} HexValueLeadingZeros(z: nat, s: string)
    requires forall i :: 0 <= i < |s| ==> IsHexDigit(s[i])
    ensures var p := seq(z, _ => '0') + s;
      (forall i :: 0 <= i < |p| ==> IsHexDigit(p[i])) && HexValue(p) == HexValue(s)
    decreases |s|
  {
    var p := seq(z, _ => '0') + s;
    if s == [] {
      assert p == seq(z, _ => '0');
      AllZeros(z);
    } else {
      HexValueLeadingZeros(z, s[..|s| - 1]);
      assert p[..|p| - 1] == seq(z, _ => '0') + s[..|s| - 1];
    }
  }

  lemma {:induction false} AllZeros(z: nat)
    ensures HexValue(seq(z, _ => '0')) == 0
  {
    if z > 0 {
      assert seq(z, _ => '0')[..z - 1] == seq(z - 1, _ => '0');
      AllZeros(z - 1);
    }
  }

  /** The disk key is exactly 32 lowercase hex digits and reads back, in base 16, as the digest. */
  lemma HashKeyShape(key: string, md5: string -> Digest)
    ensures var h := HashKeyForDisk(key, md5);
      && |h| == 32
      && (forall i :: 0 <= i < |h| ==> IsHexDigit(h[i]))
      && HexValue(h) == DigestValue(md5(key))
  {
    var v := DigestValue(md5(key));
    DigestValueBound(md5(key));
    PowSquare(16);
    ToHexLength(v, 32);
    var t := ToHex(v);
    HexRoundTrip(v);
    HexValueLeadingZeros(32 - |t|, t);
    var h := HashKeyForDisk(key, md5);
    if |t| < 32 {
      assert h == seq(32 - |t|, _ => '0') + t;
    }
  }

  /** Different digests of the same length have different values. */
  lemma {:induction false} DigestValueInjective(a: seq<byte>, b: seq<byte>)
    requires |a| == |b| && DigestValue(a) == DigestValue(b)
    ensures a == b
  {
    if a != [] {
      var n := |a| - 1;
      assert a[n] as nat == DigestValue(a) % 256;
      assert b[n] as nat == DigestValue(b) % 256;
      DigestValueInjective(a[..n], b[..n]);
      assert a == a[..n] + [a[n]] && b == b[..n] + [b[n]];
    }
  }

  /** Keys with different digests are stored under different names. */
  lemma HashKeyInjective(k1: string, k2: string, md5: string -> Digest)
    requires HashKeyForDisk(k1, md5) == HashKeyForDisk(k2, md5)
    ensures md5(k1) == md5(k2)
  {
    HashKeyShape(k1, md5);
    HashKeyShape(k2, md5);
    DigestValueInjective(md5(k1), md5(k2));
  }

  /** A `put` with room to spare is found by the next `get` of the same key. */
  lemma PutThenGet(s: DiskState, key: string, md5: string -> Digest, length: nat, max: int, b: Bitmap)
    requires WellFormed(s) && s.currentSize + length <= max
    ensures var name := HashKeyForDisk(key, md5);
      GetSpec(PutSpec(s, name, Renamed(length), max), name, DecodedTo(b)).1 == Some(b)
  {
    PutWithinMax(s, HashKeyForDisk(key, md5), length, max);
  }

  /** The disk tier: every operation goes to the inner cache under the hashed name. */
  class DiskCache {
    const cache: DiskLruCache
    const md5: string -> Digest

    ghost predicate Valid()
      reads this, cache
    {
      cache.Valid()
    }

    constructor (maxSizeBytes: int, journalFile: Option<seq<string>>, directory: map<string, nat>, md5: string -> Digest)
      ensures Valid() && fresh(cache) && this.md5 == md5 && cache.maxSizeBytes == maxSizeBytes
      ensures cache.State() == Load(journalFile, directory, maxSizeBytes)
    {
      cache := new DiskLruCache(maxSizeBytes, journalFile, directory);
      this.md5 := md5;
    }

    method Put(url: string, outcome: WriteOutcome)
      requires Valid()
      modifies cache
      ensures Valid()
      ensures cache.State() == PutSpec(old(cache.State()), HashKeyForDisk(url, md5), outcome, cache.maxSizeBytes)
    {
      var key := HashKeyForDisk(url, md5);
      cache.Put(key, outcome);
    }

    /** Exactly what the inner cache returns; the timing and logging around it have no effect. */
    method Get(url: string, decode: DecodeOutcome) returns (bitmap: Option<Bitmap>)
      requires Valid()
      modifies cache
      ensures Valid()
      ensures (cache.State(), bitmap) == GetSpec(old(cache.State()), HashKeyForDisk(url, md5), decode)
    {
      var key := HashKeyForDisk(url, md5);
      bitmap := cache.Get(key, decode);
    }

    method Clear()
      requires Valid()
      modifies cache
      ensures Valid() && cache.State() == ClearSpec(old(cache.State()))
    {
      cache.Clear();
    }
  }
}
