/**
 * `ImageLoader.calculateInSampleSize`: the power-of-two downsampling factor chosen from
 * the decoded bounds (`outHeight`, `outWidth`) and the requested size. Kotlin `Int`
 * arithmetic is modelled: division truncates toward zero and doubling wraps at 32 bits.
 */
module Sampling {
  import opened Numerics

  predicate IsPowerOfTwo(s: int)
    decreases if s > 0 then s else 0
  {
    s == 1 || (s > 1 && s % 2 == 0 && IsPowerOfTwo(s / 2))
  }

  /** No power of two lies strictly between a power of two and its double. */
  lemma {:induction false} PowerOfTwoGap(s: int, t: int)
    requires IsPowerOfTwo(s) && IsPowerOfTwo(t) && s < t
    ensures 2 * s <= t
    decreases s
  {
    if s > 1 {
      PowerOfTwoGap(s / 2, t / 2);
    }
  }

  lemma {:induction false} Pow2IsPowerOfTwo(k: nat)
    ensures IsPowerOfTwo(Pow2(k))
  {
    if k > 0 {
      Pow2IsPowerOfTwo(k - 1);
      assert Pow2(k) / 2 == Pow2(k - 1);
    }
  }

  /** The loop guard: both halved bounds, divided by `s`, still reach the requested size. */
  predicate StillFits(height: int, width: int, reqWidth: int, reqHeight: int, s: int)
    requires s != 0
  {
    TruncDiv(TruncDiv(height, 2), s) >= reqHeight && TruncDiv(TruncDiv(width, 2), s) >= reqWidth
  }

  /**
   * What the doubling loop computes: a power of two; 1 when the image already fits the
   * request; otherwise the first power of two at which the guard fails, every smaller
   * power of two (in particular s / 2) still passing it.
   */
  ghost predicate IsSampleSize(s: int, height: int, width: int, reqWidth: int, reqHeight: int) {
    && s >= 1 && IsPowerOfTwo(s)
    && (!(height > reqHeight || width > reqWidth) ==> s == 1)
    && ((height > reqHeight || width > reqWidth) ==>
          && !StillFits(height, width, reqWidth, reqHeight, s)
          && forall t :: 1 <= t < s && IsPowerOfTwo(t) ==> StillFits(height, width, reqWidth, reqHeight, t))
  }

  /** The characterisation fixes the factor: at most one value meets it. */
  lemma SampleSizeUnique(s1: int, s2: int, height: int, width: int, reqWidth: int, reqHeight: int)
    requires IsSampleSize(s1, height, width, reqWidth, reqHeight)
    requires IsSampleSize(s2, height, width, reqWidth, reqHeight)
    ensures s1 == s2
  {
  }

  lemma QuotientReaches(a: int, s: int, req: int)
    requires s > 0 && req >= 1 && TruncDiv(a, s) >= req
    ensures a >= s
  {
  }

  /** Passing the guard at `s` extends "every smaller power of two passes" to `2 * s`. */
  lemma FitsExtend(height: int, width: int, reqWidth: int, reqHeight: int, s: int)
    requires s >= 1 && IsPowerOfTwo(s) && StillFits(height, width, reqWidth, reqHeight, s)
    requires forall t :: 1 <= t < s && IsPowerOfTwo(t) ==> StillFits(height, width, reqWidth, reqHeight, t)
    ensures forall t :: 1 <= t < 2 * s && IsPowerOfTwo(t) ==> StillFits(height, width, reqWidth, reqHeight, t)
  {
    forall t | 1 <= t < 2 * s && IsPowerOfTwo(t)
      ensures StillFits(height, width, reqWidth, reqHeight, t)
    {
      if s < t { PowerOfTwoGap(s, t); }
    }
  }

  /** With a positive request, a 32-bit image passes the guard only below `2^30`. */
  lemma GuardBoundsFactor(height: int, width: int, reqWidth: int, reqHeight: int, k: nat)
    requires IsInt(height) && IsInt(width) && (reqWidth > 0 || reqHeight > 0) && k <= 30
    requires StillFits(height, width, reqWidth, reqHeight, Pow2(k))
    ensures k < 30
  {
    Pow2At30();
    if reqHeight > 0 {
      QuotientReaches(TruncDiv(height, 2), Pow2(k), reqHeight);
    } else {
      QuotientReaches(TruncDiv(width, 2), Pow2(k), reqWidth);
    }
  }

  /** With no positive request, a non-negative 32-bit image passes the guard at every non-zero factor. */
  lemma GuardAlwaysPasses(height: int, width: int, reqWidth: int, reqHeight: int, s: int)
    requires 0 <= height <= INT_MAX && 0 <= width <= INT_MAX && reqWidth <= 0 && reqHeight <= 0
    requires s > 0 || s == INT_MIN
    ensures StillFits(height, width, reqWidth, reqHeight, s)
  {
    var halfHeight, halfWidth := TruncDiv(height, 2), TruncDiv(width, 2);
    assert 0 <= halfHeight < 0x8000_0000 && 0 <= halfWidth < 0x8000_0000;
    if s > 0 {
      NonNegativeQuotient(halfHeight, s);
      NonNegativeQuotient(halfWidth, s);
    } else {
      assert halfHeight / 0x8000_0000 == 0 && halfWidth / 0x8000_0000 == 0;
    }
  }

  lemma NonNegativeQuotient(a: int, b: int)
    requires a >= 0 && b > 0
    ensures TruncDiv(a, b) >= 0
  {
  }

  /**
   * The factor with the doubling loop guarded so that it runs only when some requested
   * dimension is positive; with no positive request the image is decoded at full size.
   */
  method CalculateInSampleSize(height: int, width: int, reqWidth: int, reqHeight: int) returns (inSampleSize: int)
    ensures reqWidth > 0 || reqHeight > 0 ==> IsSampleSize(inSampleSize, height, width, reqWidth, reqHeight)
    ensures reqWidth <= 0 && reqHeight <= 0 ==> inSampleSize == 1
    ensures IsInt(height) && IsInt(width) ==> IsInt(inSampleSize)
  {
    inSampleSize := 1;
    if (height > reqHeight || width > reqWidth) && (reqWidth > 0 || reqHeight > 0) {
      var halfHeight := TruncDiv(height, 2);
      var halfWidth := TruncDiv(width, 2);
      while TruncDiv(halfHeight, inSampleSize) >= reqHeight && TruncDiv(halfWidth, inSampleSize) >= reqWidth
        invariant inSampleSize >= 1 && IsPowerOfTwo(inSampleSize)
        invariant forall t :: 1 <= t < inSampleSize && IsPowerOfTwo(t) ==> StillFits(height, width, reqWidth, reqHeight, t)
        invariant reqHeight > 0 ==> inSampleSize == 1 || inSampleSize <= 2 * halfHeight
        invariant reqWidth > 0 ==> inSampleSize == 1 || inSampleSize <= 2 * halfWidth
        decreases (if reqHeight > 0 then halfHeight else halfWidth) - inSampleSize
      {
        if reqHeight > 0 {
          QuotientReaches(halfHeight, inSampleSize, reqHeight);
        } else {
          QuotientReaches(halfWidth, inSampleSize, reqWidth);
        }
        if reqWidth > 0 { QuotientReaches(halfWidth, inSampleSize, reqWidth); }
        if reqHeight > 0 { QuotientReaches(halfHeight, inSampleSize, reqHeight); }
        FitsExtend(height, width, reqWidth, reqHeight, inSampleSize);
        inSampleSize := inSampleSize * 2;
      }
    }
  }

  datatype SampleOutcome = Sampled(inSampleSize: int) | DivisionByZero

  /** The value of the 32-bit `inSampleSize` after `k` doublings from 1. */
  function Doubled32(k: nat): int {
    if k <= 30 then Pow2(k) else if k == 31 then INT_MIN else 0
  }

  lemma DoubleStep32(k: nat)
    requires k < 32
    ensures Wrap32(Doubled32(k) * 2) == Doubled32(k + 1)
  {
    Pow2At30();
    if k + 1 < 30 {
      Pow2Monotone(k + 1, 30);
    }
  }

  /**
   * The loop exactly as written, over 32-bit `Int`: when some requested dimension is
   * positive it computes the same factor as `CalculateInSampleSize`; when neither is
   * positive and the image is larger than the request, the guard never fails, the factor
   * wraps to `Int.MIN_VALUE` and then to 0, and the next guard divides by zero.
   */
  method CalculateInSampleSizeAsWritten(height: int, width: int, reqWidth: int, reqHeight: int) returns (r: SampleOutcome)
    requires IsInt(height) && IsInt(width) && IsInt(reqWidth) && IsInt(reqHeight)
    ensures reqWidth > 0 || reqHeight > 0 ==> r.Sampled? && IsSampleSize(r.inSampleSize, height, width, reqWidth, reqHeight)
    ensures ((height > reqHeight || width > reqWidth) && reqWidth <= 0 && reqHeight <= 0
             && height >= 0 && width >= 0) ==> r == DivisionByZero
    ensures !(height > reqHeight || width > reqWidth) ==> r == Sampled(1)
  {
    var inSampleSize := 1;
    if height > reqHeight || width > reqWidth {
      var halfHeight := TruncDiv(height, 2);
      var halfWidth := TruncDiv(width, 2);
      ghost var k: nat := 0;
      while true
        invariant k <= 32 && inSampleSize == Doubled32(k)
        invariant reqWidth > 0 || reqHeight > 0 ==> k <= 30
        invariant k <= 30 ==> forall t :: 1 <= t < inSampleSize && IsPowerOfTwo(t) ==> StillFits(height, width, reqWidth, reqHeight, t)
        decreases 32 - k
      {
        if inSampleSize == 0 {
          return DivisionByZero;
        }
        if !(TruncDiv(halfHeight, inSampleSize) >= reqHeight && TruncDiv(halfWidth, inSampleSize) >= reqWidth) {
          if reqWidth <= 0 && reqHeight <= 0 && height >= 0 && width >= 0 {
            GuardAlwaysPasses(height, width, reqWidth, reqHeight, inSampleSize);
          }
          break;
        }
        if k <= 30 {
          Pow2IsPowerOfTwo(k);
          if reqHeight > 0 || reqWidth > 0 {
            GuardBoundsFactor(height, width, reqWidth, reqHeight, k);
          }
          FitsExtend(height, width, reqWidth, reqHeight, inSampleSize);
        }
        DoubleStep32(k);
        inSampleSize := Wrap32(inSampleSize * 2);
        k := k + 1;
      }
      if k <= 30 { Pow2IsPowerOfTwo(k); }
    }
    return Sampled(inSampleSize);
  }

  /** The source's default request size 0x0 on a 400x400 image: the division by zero. */
  method ZeroRequestDividesByZero() returns (r: SampleOutcome)
    ensures r == DivisionByZero
  {
    r := CalculateInSampleSizeAsWritten(400, 400, 0, 0);
  }
}
