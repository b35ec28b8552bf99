/** `ImageRequest` and the fluent `RequestBuilder` that assembles it. */
module Requests {
  import Transformations

  /** The request: where to load from, the target size, and the transformations in order. */
  datatype ImageRequest = ImageRequest(
    url: string,
    reqWidth: int,
    reqHeight: int,
    transformations: seq<Transformations.Transformation>)

  /**
   * A builder whose size fields default to 0x0 and whose transformation list grows at the
   * end. Every fluent method returns the builder itself.
   */
  class RequestBuilder {
    const url: string
    var reqWidth: int
    var reqHeight: int
    var transformations: seq<Transformations.Transformation>

    constructor (url: string)
      ensures this.url == url && reqWidth == 0 && reqHeight == 0 && transformations == []
    {
      this.url := url;
      reqWidth := 0;
      reqHeight := 0;
      transformations := [];
    }

    /** Sets both dimensions; the transformations are untouched. */
    method Override(width: int, height: int) returns (self: RequestBuilder)
      modifies this
      ensures self == this
      ensures reqWidth == width && reqHeight == height
      ensures transformations == old(transformations)
    {
      reqWidth := width;
      reqHeight := height;
      self := this;
    }

    method CircleCrop() returns (self: RequestBuilder)
      modifies this
      ensures self == this
      ensures transformations == old(transformations) + [Transformations.CircleCrop]
      ensures reqWidth == old(reqWidth) && reqHeight == old(reqHeight)
    {
      transformations := transformations + [Transformations.CircleCrop];
      self := this;
    }

    method RoundedCornerCrop(radius: Transformations.Graphics.Float) returns (self: RequestBuilder)
      modifies this
      ensures self == this
      ensures transformations == old(transformations) + [Transformations.RoundedCornerCrop(radius)]
      ensures reqWidth == old(reqWidth) && reqHeight == old(reqHeight)
    {
      transformations := transformations + [Transformations.RoundedCornerCrop(radius)];
      self := this;
    }

    method Transform(t: Transformations.Transformation) returns (self: RequestBuilder)
      modifies this
      ensures self == this
      ensures transformations == old(transformations) + [t]
      ensures reqWidth == old(reqWidth) && reqHeight == old(reqHeight)
    {
      transformations := transformations + [t];
      self := this;
    }

    /**
     * A snapshot of the builder's fields; the request is a value, so appends made to the
     * builder afterwards do not reach it, and the builder itself is left unchanged.
     */
    method Build() returns (request: ImageRequest)
      ensures request.url == url && request.reqWidth == reqWidth && request.reqHeight == reqHeight
      ensures request.transformations == transformations
    {
      request := ImageRequest(url, reqWidth, reqHeight, transformations);
    }
  }

  /**
   * The calls a caller makes in sequence (the source's builder chain), and the request a
   * fresh builder for `url` produces after them.
   */
  datatype BuilderCall =
    | OverrideCall(width: int, height: int)
    | CircleCropCall
    | RoundedCornerCropCall(radius: Transformations.Graphics.Float)
    | TransformCall(t: Transformations.Transformation)

  function Apply(r: ImageRequest, c: BuilderCall): ImageRequest {
    match c
    case OverrideCall(w, h) => r.(reqWidth := w, reqHeight := h)
    case CircleCropCall => r.(transformations := r.transformations + [Transformations.CircleCrop])
    case RoundedCornerCropCall(radius) => r.(transformations := r.transformations + [Transformations.RoundedCornerCrop(radius)])
    case TransformCall(t) => r.(transformations := r.transformations + [t])
  }

  function ApplyAll(r: ImageRequest, calls: seq<BuilderCall>): ImageRequest
    decreases |calls|
  {
    if calls == [] then r else ApplyAll(Apply(r, calls[0]), calls[1..])
  }

  function Appended(c: BuilderCall): seq<Transformations.Transformation> {
    match c
    case OverrideCall(_, _) => []
    case CircleCropCall => [Transformations.CircleCrop]
    case RoundedCornerCropCall(radius) => [Transformations.RoundedCornerCrop(radius)]
    case TransformCall(t) => [t]
  }

  function AllAppended(calls: seq<BuilderCall>): seq<Transformations.Transformation>
    decreases |calls|
  {
    if calls == [] then [] else Appended(calls[0]) + AllAppended(calls[1..])
  }

  /**
   * Whatever the chain, the url is kept and the transformations are exactly the appended
   * ones in call order; without an `override` the size is kept, and a final `override`
   * sets it. `LastOverrideWins` covers an `override` followed by other calls.
   */
  lemma {:induction false} ChainBuilds(r: ImageRequest, calls: seq<BuilderCall>)
    ensures ApplyAll(r, calls).url == r.url
    ensures ApplyAll(r, calls).transformations == r.transformations + AllAppended(calls)
    ensures (forall i :: 0 <= i < |calls| ==> !calls[i].OverrideCall?) ==>
      ApplyAll(r, calls).reqWidth == r.reqWidth && ApplyAll(r, calls).reqHeight == r.reqHeight
    ensures |calls| > 0 && calls[|calls| - 1].OverrideCall? ==>
      ApplyAll(r, calls).reqWidth == calls[|calls| - 1].width && ApplyAll(r, calls).reqHeight == calls[|calls| - 1].height
    decreases |calls|
  {
    if calls != [] {
      ChainBuilds(Apply(r, calls[0]), calls[1..]);
      assert r.transformations + Appended(calls[0]) + AllAppended(calls[1..])
          == r.transformations + AllAppended(calls);
      if |calls| == 1 {
        assert ApplyAll(Apply(r, calls[0]), calls[1..]) == Apply(r, calls[0]);
      } else {
        assert calls[1..][|calls[1..]| - 1] == calls[|calls| - 1];
      }
      if forall i :: 0 <= i < |calls| ==> !calls[i].OverrideCall? {
        assert !calls[0].OverrideCall?;
        assert forall i :: 0 <= i < |calls[1..]| ==> !calls[1..][i].OverrideCall? by {
          forall i | 0 <= i < |calls[1..]| ensures !calls[1..][i].OverrideCall? {
            assert calls[1..][i] == calls[i + 1];
          }
        }
      }
    }
  }

  /** The last `override` in a chain fixes the size, whatever calls come after it. */
  lemma {:induction false} LastOverrideWins(r: ImageRequest, calls: seq<BuilderCall>, j: nat)
    requires j < |calls| && calls[j].OverrideCall?
    requires forall i :: j < i < |calls| ==> !calls[i].OverrideCall?
    ensures ApplyAll(r, calls).reqWidth == calls[j].width && ApplyAll(r, calls).reqHeight == calls[j].height
    decreases j
  {
    var rest := calls[1..];
    assert forall i :: 0 <= i < |rest| ==> rest[i] == calls[i + 1];
    if j == 0 {
      ChainBuilds(Apply(r, calls[0]), rest);
    } else {
      LastOverrideWins(Apply(r, calls[0]), rest, j - 1);
    }
  }

  /** Running a chain on a builder leaves it in the state `ApplyAll` describes. */
  method RunChain(b: RequestBuilder, calls: seq<BuilderCall>) returns (request: ImageRequest)
    modifies b
    ensures request == ApplyAll(ImageRequest(b.url, old(b.reqWidth), old(b.reqHeight), old(b.transformations)), calls)
    ensures request == ImageRequest(b.url, b.reqWidth, b.reqHeight, b.transformations)
  {
    var i := 0;
    ghost var start := ImageRequest(b.url, b.reqWidth, b.reqHeight, b.transformations);
    while i < |calls|
      invariant 0 <= i <= |calls|
      invariant ApplyAll(start, calls) == ApplyAll(ImageRequest(b.url, b.reqWidth, b.reqHeight, b.transformations), calls[i..])
    {
      var self: RequestBuilder;
      match calls[i] {
        case OverrideCall(w, h) => self := b.Override(w, h);
        case CircleCropCall => self := b.CircleCrop();
        case RoundedCornerCropCall(radius) => self := b.RoundedCornerCrop(radius);
        case TransformCall(t) => self := b.Transform(t);
      }
      assert calls[i..][1..] == calls[i + 1..];
      i := i + 1;
    }
    request := b.Build();
  }
}
