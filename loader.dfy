/**
 * `ImageLoader`: cache keys, the transformation pipeline, and the two load paths
 * (`load2` and the older `load`) that look in the two-level cache, fetch on a miss and
 * store what they got. The network fetch and the disk tier's decode and write results
 * are parameters.
 */
module Loader {
  import opened Wrappers
  import opened Strings
  import opened Graphics
  import opened Transformations
  import opened Requests
  import opened Config
  import opened DiskLru
  import opened MemoryTier
  import opened DiskTier
  import opened Repository

  /** `genCacheKey` without transformations: `"$url,${reqWidth}x${reqHeight}"`. */
  function BaseKey(url: string, reqWidth: int, reqHeight: int): string {
    url + "," + IntToDecimal(reqWidth) + "x" + IntToDecimal(reqHeight)
  }

  function Keys(ts: seq<Transformation>, floatText: Float -> string): (keys: seq<string>)
    ensures |keys| == |ts| && forall i :: 0 <= i < |ts| ==> keys[i] == Key(ts[i], floatText)
  {
    if ts == [] then [] else [Key(ts[0], floatText)] + Keys(ts[1..], floatText)
  }

  /** `genCacheKey`: the base key, then `","` and the transformation keys joined by `"_"` if that join is not empty. */
  function GenCacheKey(url: string, reqWidth: int, reqHeight: int, ts: seq<Transformation>, floatText: Float -> string): string {
    var joined := Join(Keys(ts, floatText), "_");
    if joined == [] then BaseKey(url, reqWidth, reqHeight) else BaseKey(url, reqWidth, reqHeight) + "," + joined
  }

  function BaseKeyOf(r: ImageRequest): string {
    GenCacheKey(r.url, r.reqWidth, r.reqHeight, [], x => [])
  }

  /** `load2`'s `finalKey`: the full key when there are transformations, else the base key. */
  function FinalKeyOf(r: ImageRequest, floatText: Float -> string): string {
    if r.transformations != [] then GenCacheKey(r.url, r.reqWidth, r.reqHeight, r.transformations, floatText)
    else BaseKeyOf(r)
  }

  lemma JoinStartsWithFirst(parts: seq<string>, sep: string)
    requires |parts| >= 1
    ensures |Join(parts, sep)| >= |parts[0]|
  {
  }

  /** Every transformation key is non-empty, so the join is empty exactly when the list is. */
  lemma JoinedEmptyIffNoTransformations(ts: seq<Transformation>, floatText: Float -> string)
    ensures Join(Keys(ts, floatText), "_") == [] <==> ts == []
  {
    if ts != [] {
      JoinStartsWithFirst(Keys(ts, floatText), "_");
      assert |Key(ts[0], floatText)| > 0;
    }
  }

  /**
   * The key is the base key exactly when there are no transformations; otherwise it is the
   * base key followed by `","` and the joined transformation keys. So `finalKey == baseKey`
   * in `load2` holds exactly when the list is empty.
   */
  lemma KeyExtendsBaseKey(url: string, reqWidth: int, reqHeight: int, ts: seq<Transformation>, floatText: Float -> string)
    ensures var key := GenCacheKey(url, reqWidth, reqHeight, ts, floatText);
      var base := BaseKey(url, reqWidth, reqHeight);
      && (key == base <==> ts == [])
      && (ts == [] ==> key == GenCacheKey(url, reqWidth, reqHeight, [], floatText))
      && (ts != [] ==> key == base + "," + Join(Keys(ts, floatText), "_"))
  {
    JoinedEmptyIffNoTransformations(ts, floatText);
  }

  lemma FinalKeyIsBaseKeyIffNoTransformations(r: ImageRequest, floatText: Float -> string)
    ensures FinalKeyOf(r, floatText) == BaseKeyOf(r) <==> r.transformations == []
  {
    KeyExtendsBaseKey(r.url, r.reqWidth, r.reqHeight, r.transformations, floatText);
    KeyExtendsBaseKey(r.url, r.reqWidth, r.reqHeight, [], floatText);
  }

  /** A decimal rendering holds only digits and `-`, so no `x` and no `,`. */
  lemma DecimalLacks(n: int, c: char)
    requires !IsDigit(c) && c != '-'
    ensures c !in IntToDecimal(n)
  {
    var s := IntToDecimal(n);
    assert forall i :: 0 <= i < |s| ==> s[i] != c;
  }

  /** The text after the last `c`, or all of it. */
  function LastPiece(s: string, c: char): (d: string)
    ensures c !in d
  {
    if s == [] || s[|s| - 1] == c then [] else LastPiece(s[..|s| - 1], c) + [s[|s| - 1]]
  }

  lemma {:induction false} LastPieceOf(p: string, c: char, d: string)
    requires c !in d
    ensures LastPiece(p + [c] + d, c) == d
  {
    if d != [] {
      var d' := d[..|d| - 1];
      assert (p + [c] + d)[..|p + [c] + d| - 1] == p + [c] + d';
      LastPieceOf(p, c, d');
      assert d' + [d[|d| - 1]] == d;
    } else {
      assert p + [c] + d == p + [c];
    }
  }

  /** Text ending in `c` and a piece without `c` splits back at that last `c`. */
  lemma SplitAtLast(p1: string, d1: string, p2: string, d2: string, c: char)
    requires c !in d1 && c !in d2
    requires p1 + [c] + d1 == p2 + [c] + d2
    ensures p1 == p2 && d1 == d2
  {
    LastPieceOf(p1, c, d1);
    LastPieceOf(p2, c, d2);
    var k := p1 + [c] + d1;
    assert p1 == k[..|p1|] && p2 == k[..|p2|];
  }

  /**
   * A base key tells its url and `Int` sizes apart: the height follows the last `x`, the
   * width the last `,` before it, and the url is what precedes, since a decimal rendering
   * holds neither character.
   */
  lemma BaseKeyInjective(url1: string, w1: int, h1: int, url2: string, w2: int, h2: int)
    requires Numerics.IsInt(w1) && Numerics.IsInt(h1) && Numerics.IsInt(w2) && Numerics.IsInt(h2)
    requires BaseKey(url1, w1, h1) == BaseKey(url2, w2, h2)
    ensures url1 == url2 && w1 == w2 && h1 == h2
  {
    DecimalLacks(w1, ','); DecimalLacks(w2, ',');
    DecimalLacks(h1, 'x'); DecimalLacks(h2, 'x');
    var W1, H1, W2, H2 := IntToDecimal(w1), IntToDecimal(h1), IntToDecimal(w2), IntToDecimal(h2);
    assert BaseKey(url1, w1, h1) == (url1 + [','] + W1) + ['x'] + H1;
    assert BaseKey(url2, w2, h2) == (url2 + [','] + W2) + ['x'] + H2;
    SplitAtLast(url1 + [','] + W1, H1, url2 + [','] + W2, H2, 'x');
    SplitAtLast(url1, W1, url2, W2, ',');
    IntToDecimalInjective(w1, w2);
    IntToDecimalInjective(h1, h2);
  }

  /** `BaseKeyInjective` for one url and two sizes, as `load` and `load2` key one image. */
  lemma BaseKeyDistinguishesSizes(url: string, w1: int, h1: int, w2: int, h2: int)
    requires Numerics.IsInt(w1) && Numerics.IsInt(h1) && Numerics.IsInt(w2) && Numerics.IsInt(h2)
    requires BaseKey(url, w1, h1) == BaseKey(url, w2, h2)
    ensures w1 == w2 && h1 == h2
  {
    BaseKeyInjective(url, w1, h1, url, w2, h2);
  }

  /** The case a `,` in a url might seem to confuse: `"a,1x1"` at 2x3 and `"a"` at 1x1 key apart. */
  lemma CommaInUrlStillDistinct()
    ensures BaseKey("a,1x1", 2, 3) != BaseKey("a", 1, 1)
  {
    if BaseKey("a,1x1", 2, 3) == BaseKey("a", 1, 1) {
      BaseKeyInjective("a,1x1", 2, 3, "a", 1, 1);
    }
  }

  /** The text up to the first `'_'`, or all of it. */
  function PieceOf(s: string): (p: string)
    ensures '_' !in p
  {
    if s == [] || s[0] == '_' then [] else [s[0]] + PieceOf(s[1..])
  }

  /** A piece without `'_'`, followed by nothing or by `"_"` and more, is the piece of the whole. */
  lemma {:induction false} PieceOfPrefix(a: string, t: string)
    requires '_' !in a && (t == [] || t[0] == '_')
    ensures PieceOf(a + t) == a
  {
    if a == [] {
      assert a + t == t;
    } else {
      assert (a + t)[1..] == a[1..] + t;
      PieceOfPrefix(a[1..], t);
    }
  }

  /** `p + x == p + y` cancels to `x == y`. */
  lemma CancelPrefix(p: string, x: string, y: string)
    requires p + x == p + y
    ensures x == y
  {
    assert x == (p + x)[|p|..] && y == (p + y)[|p|..];
  }

  /** The join of one key, then the rest: nothing after the last key, `"_"` and the rest's join otherwise. */
  function JoinTail(ts: seq<Transformation>, floatText: Float -> string): string
    requires ts != []
  {
    if |ts| == 1 then [] else "_" + Join(Keys(ts[1..], floatText), "_")
  }

  lemma JoinKeysUnfold(ts: seq<Transformation>, floatText: Float -> string)
    requires ts != []
    ensures Join(Keys(ts, floatText), "_") == Key(ts[0], floatText) + JoinTail(ts, floatText)
  {
    if |ts| > 1 {
      assert Keys(ts, floatText)[1..] == Keys(ts[1..], floatText);
    }
  }

  /** A key's first letter gives the kind: `C` for the circle crop, `R` for the rounded one. */
  lemma KeyFirstLetter(t: Transformation, tail: string, floatText: Float -> string)
    ensures |Key(t, floatText) + tail| > 0
    ensures (Key(t, floatText) + tail)[0] == if t.CircleCrop? then 'C' else 'R'
  {
  }

  /** Two rounded-corner keys, each followed by nothing or by `"_"` and more, as for `KeyBeforeSeparator`. */
  lemma RoundedKeyBeforeSeparator(f1: string, tail1: string, f2: string, tail2: string)
    requires '_' !in f1 && '_' !in f2
    requires tail1 == [] || tail1[0] == '_'
    requires tail2 == [] || tail2[0] == '_'
    requires ROUNDED_CORNER_CROP_PREFIX + f1 + tail1 == ROUNDED_CORNER_CROP_PREFIX + f2 + tail2
    ensures f1 == f2 && tail1 == tail2
  {
    assert ROUNDED_CORNER_CROP_PREFIX + f1 + tail1 == ROUNDED_CORNER_CROP_PREFIX + (f1 + tail1);
    assert ROUNDED_CORNER_CROP_PREFIX + f2 + tail2 == ROUNDED_CORNER_CROP_PREFIX + (f2 + tail2);
    CancelPrefix(ROUNDED_CORNER_CROP_PREFIX, f1 + tail1, f2 + tail2);
    PieceOfPrefix(f1, tail1);
    PieceOfPrefix(f2, tail2);
    CancelPrefix(f1, tail1, tail2);
  }

  /**
   * A transformation key followed by nothing or by `"_"` and more is fixed by the string
   * it starts, when the radius text has no `'_'`.
   */
  lemma KeyBeforeSeparator(t1: Transformation, tail1: string, t2: Transformation, tail2: string, floatText: Float -> string)
    requires forall r :: '_' !in floatText(r)
    requires tail1 == [] || tail1[0] == '_'
    requires tail2 == [] || tail2[0] == '_'
    requires Key(t1, floatText) + tail1 == Key(t2, floatText) + tail2
    ensures Key(t1, floatText) == Key(t2, floatText) && tail1 == tail2
  {
    KeyFirstLetter(t1, tail1, floatText);
    KeyFirstLetter(t2, tail2, floatText);
    if t1.CircleCrop? {
      CancelPrefix(CIRCLE_CROP_KEY, tail1, tail2);
    } else {
      RoundedKeyBeforeSeparator(floatText(t1.radius), tail1, floatText(t2.radius), tail2);
    }
  }

  /**
   * When no radius text contains `'_'` (as for `Float.toString`), the joined
   * transformation keys fix the keys one by one, in order.
   */
  lemma {:induction false} JoinedKeysInjective(ts1: seq<Transformation>, ts2: seq<Transformation>, floatText: Float -> string)
    requires forall r :: '_' !in floatText(r)
    requires Join(Keys(ts1, floatText), "_") == Join(Keys(ts2, floatText), "_")
    ensures Keys(ts1, floatText) == Keys(ts2, floatText)
    decreases |ts1|
  {
    JoinedEmptyIffNoTransformations(ts1, floatText);
    JoinedEmptyIffNoTransformations(ts2, floatText);
    if ts1 != [] {
      JoinKeysUnfold(ts1, floatText);
      JoinKeysUnfold(ts2, floatText);
      KeyBeforeSeparator(ts1[0], JoinTail(ts1, floatText), ts2[0], JoinTail(ts2, floatText), floatText);
      if |ts1| > 1 && |ts2| > 1 {
        CancelPrefix("_", Join(Keys(ts1[1..], floatText), "_"), Join(Keys(ts2[1..], floatText), "_"));
        JoinedKeysInjective(ts1[1..], ts2[1..], floatText);
      }
    }
  }

  /**
   * Cache keys of one url and size fix the ordered list of transformation keys, so two
   * requests whose transformations differ in kind, radius text or order never share a
   * key. It needs radius texts without `'_'`, which `Float.toString` never produces.
   */
  lemma GenCacheKeyFixesTransformations(url: string, reqWidth: int, reqHeight: int,
                                        ts1: seq<Transformation>, ts2: seq<Transformation>, floatText: Float -> string)
    requires forall r :: '_' !in floatText(r)
    requires GenCacheKey(url, reqWidth, reqHeight, ts1, floatText) == GenCacheKey(url, reqWidth, reqHeight, ts2, floatText)
    ensures Keys(ts1, floatText) == Keys(ts2, floatText)
  {
    var base := BaseKey(url, reqWidth, reqHeight);
    JoinedEmptyIffNoTransformations(ts1, floatText);
    JoinedEmptyIffNoTransformations(ts2, floatText);
    var j1, j2 := Join(Keys(ts1, floatText), "_"), Join(Keys(ts2, floatText), "_");
    assert |GenCacheKey(url, reqWidth, reqHeight, ts1, floatText)| == |base| + if j1 == [] then 0 else 1 + |j1|;
    assert |GenCacheKey(url, reqWidth, reqHeight, ts2, floatText)| == |base| + if j2 == [] then 0 else 1 + |j2|;
    if j1 != [] {
      assert base + "," + j1 == (base + ",") + j1;
      assert base + "," + j2 == (base + ",") + j2;
      CancelPrefix(base + ",", j1, j2);
      JoinedKeysInjective(ts1, ts2, floatText);
    }
  }

  /** Order matters: a circle crop then a rounded-corner crop is cached apart from the reverse order. */
  lemma TransformationOrderMatters(url: string, reqWidth: int, reqHeight: int, r: Float, floatText: Float -> string)
    ensures GenCacheKey(url, reqWidth, reqHeight, [CircleCrop, RoundedCornerCrop(r)], floatText)
         != GenCacheKey(url, reqWidth, reqHeight, [RoundedCornerCrop(r), CircleCrop], floatText)
  {
    var base := BaseKey(url, reqWidth, reqHeight);
    var k1 := GenCacheKey(url, reqWidth, reqHeight, [CircleCrop, RoundedCornerCrop(r)], floatText);
    var k2 := GenCacheKey(url, reqWidth, reqHeight, [RoundedCornerCrop(r), CircleCrop], floatText);
    KeyExtendsBaseKey(url, reqWidth, reqHeight, [CircleCrop, RoundedCornerCrop(r)], floatText);
    KeyExtendsBaseKey(url, reqWidth, reqHeight, [RoundedCornerCrop(r), CircleCrop], floatText);
    JoinKeysUnfold([CircleCrop, RoundedCornerCrop(r)], floatText);
    JoinKeysUnfold([RoundedCornerCrop(r), CircleCrop], floatText);
    assert k1[|base| + 1] == 'C';
    assert k2[|base| + 1] == 'R';
  }

  /** `applyTransformations`: `result = t.transform(result)` for each transformation in order. */
  function Applied(b: Bitmap, ts: seq<Transformation>): Bitmap
    decreases |ts|
  {
    if ts == [] then b else Transform(ts[|ts| - 1], Applied(b, ts[..|ts| - 1])).output
  }

  /** The fold runs left to right: applying `xs + ys` is applying `xs`, then `ys`. */
  lemma {:induction false} AppliedAppend(b: Bitmap, xs: seq<Transformation>, ys: seq<Transformation>)
    ensures Applied(b, xs + ys) == Applied(Applied(b, xs), ys)
    decreases |ys|
  {
    if ys == [] {
      assert xs + ys == xs;
    } else {
      var ys' := ys[..|ys| - 1];
      AppliedAppend(b, xs, ys');
      assert (xs + ys)[..|xs + ys| - 1] == xs + ys';
    }
  }

  /** No transformation returns the input itself; one returns that transformation's output. */
  lemma AppliedBase(b: Bitmap, t: Transformation)
    ensures Applied(b, []) == b
    ensures Applied(b, [t]) == Transform(t, b).output
  {
    assert [t][..0] == [];
  }

  /**
   * After at least one transformation the result is a fresh mutable ARGB_8888 bitmap,
   * square when the last step is a circle crop, and of the input's size when every step
   * is a rounded-corner crop.
   */
  lemma {:induction false} AppliedShape(b: Bitmap, ts: seq<Transformation>)
    ensures ts != [] ==> Applied(b, ts).config == Argb8888 && Applied(b, ts).isMutable
    ensures ts != [] && ts[|ts| - 1] == CircleCrop ==> Applied(b, ts).width == Applied(b, ts).height
    ensures (forall i :: 0 <= i < |ts| ==> ts[i].RoundedCornerCrop?) ==>
      Applied(b, ts).width == b.width && Applied(b, ts).height == b.height
    decreases |ts|
  {
    if ts != [] {
      AppliedShape(b, ts[..|ts| - 1]);
    }
  }

  /**
   * What `fetchFromNetwork` does: it returns a bitmap, returns null (an unsuccessful
   * response, no body, or a failed decode), or throws, as OkHttp's `execute()` does on an
   * `IOException` or a time-out and `calculateInSampleSize` does on a 0x0 request. Only
   * cancellation is caught in `load`/`load2`, and it is rethrown, so a throw escapes.
   */
  datatype Fetch = Fetched(bitmap: Bitmap) | FetchedNull | FetchThrew

  /** How `load`/`load2` end: by returning a nullable bitmap, or with the fetch's exception. */
  datatype LoadResult = Returned(bitmap: Option<Bitmap>) | Threw

  /** What the world answers during one load: the disk decodes of the final and base
      keys' files, the network fetch, and the disk write of a fetched bitmap. */
  datatype Outcomes = Outcomes(decodeFinal: DecodeOutcome, decodeBase: DecodeOutcome, fetched: Fetch, write: WriteOutcome)

  /** `cache.memoryCache.put(key, b)`: the memory tier only. */
  function StoreInMemory(s: RepoState, t: Tiers, key: string, b: Bitmap): (r: RepoState)
    requires RepoWellFormed(s, t)
    ensures RepoWellFormed(r, t) && r.disk == s.disk
  {
    PutKeepsWellFormed(s.memory, key, b, t.memoryMax);
    s.(memory := MemPut(s.memory, key, b, t.memoryMax))
  }

  /** The two lookups of `load2`: the final key, then (with transformations, on a miss) the base key. */
  function Load2Lookups(s: RepoState, t: Tiers, floatText: Float -> string, req: ImageRequest, o: Outcomes): (r: (RepoState, Option<Bitmap>, Option<Bitmap>))
    requires RepoWellFormed(s, t)
    ensures RepoWellFormed(r.0, t)
  {
    var (s1, hit) := RepoGet(s, t, FinalKeyOf(req, floatText), o.decodeFinal);
    if hit.Some? || req.transformations == [] then (s1, hit, None)
    else
      var (s2, original) := RepoGet(s1, t, BaseKeyOf(req), o.decodeBase);
      (s2, None, original)
  }

  /**
   * `load2`: serve the final key; else transform a cached original; else fetch, store,
   * transform. A fetch that throws ends the call in the state the lookups left.
   */
  function Load2Spec(s: RepoState, t: Tiers, floatText: Float -> string, req: ImageRequest, o: Outcomes): (r: (RepoState, LoadResult))
    requires RepoWellFormed(s, t)
    ensures RepoWellFormed(r.0, t)
  {
    var ts := req.transformations;
    var finalKey := FinalKeyOf(req, floatText);
    var (s2, hit, original) := Load2Lookups(s, t, floatText, req, o);
    if hit.Some? then (s2, Returned(hit))
    else if original.Some? then
      var out := Applied(original.value, ts);
      (StoreInMemory(s2, t, finalKey, out), Returned(Some(out)))
    else
      match o.fetched
      case FetchThrew => (s2, Threw)
      case FetchedNull => (s2, Returned(None))
      case Fetched(b) =>
        var s3 := RepoPut(s2, t, BaseKeyOf(req), b, o.write);
        if ts != [] then
          var out := Applied(b, ts);
          (StoreInMemory(s3, t, finalKey, out), Returned(Some(out)))
        else (s3, Returned(Some(b)))
  }

  /**
   * `load`: look up the base key only; transform a hit (storing the result in memory)
   * every time. A fetch that throws ends the call in the state the lookup left.
   */
  function LoadSpec(s: RepoState, t: Tiers, floatText: Float -> string, req: ImageRequest, o: Outcomes): (r: (RepoState, LoadResult))
    requires RepoWellFormed(s, t)
    ensures RepoWellFormed(r.0, t)
  {
    var ts := req.transformations;
    var key := BaseKeyOf(req);
    var transformedKey := GenCacheKey(req.url, req.reqWidth, req.reqHeight, ts, floatText);
    var (s1, original) := RepoGet(s, t, key, o.decodeBase);
    if original.Some? then
      if ts != [] then
        var out := Applied(original.value, ts);
        (StoreInMemory(s1, t, transformedKey, out), Returned(Some(out)))
      else (s1, Returned(original))
    else
      match o.fetched
      case FetchThrew => (s1, Threw)
      case FetchedNull => (s1, Returned(None))
      case Fetched(b) =>
        var s2 := RepoPut(s1, t, key, b, o.write);
        if ts != [] then
          var out := Applied(b, ts);
          (StoreInMemory(s2, t, transformedKey, out), Returned(Some(out)))
        else (s2, Returned(Some(b)))
  }

  /** A hit on the final key is returned as the repository gave it: no second lookup, no fetch, no store. */
  lemma Load2FinalHit(s: RepoState, t: Tiers, floatText: Float -> string, req: ImageRequest, o: Outcomes)
    requires RepoWellFormed(s, t)
    requires RepoGet(s, t, FinalKeyOf(req, floatText), o.decodeFinal).1.Some?
    ensures var (s1, hit) := RepoGet(s, t, FinalKeyOf(req, floatText), o.decodeFinal);
      Load2Spec(s, t, floatText, req, o) == (s1, Returned(hit))
  {
  }

  /**
   * With transformations, a miss on the final key and a hit on the base key returns the
   * transformed original and stores it under the final key in the memory tier only.
   */
  lemma Load2TransformsCachedOriginal(s: RepoState, t: Tiers, floatText: Float -> string, req: ImageRequest, o: Outcomes)
    requires RepoWellFormed(s, t) && req.transformations != []
    requires RepoGet(s, t, FinalKeyOf(req, floatText), o.decodeFinal).1.None?
    ensures var s1 := RepoGet(s, t, FinalKeyOf(req, floatText), o.decodeFinal).0;
      var (s2, original) := RepoGet(s1, t, BaseKeyOf(req), o.decodeBase);
      var r := Load2Spec(s, t, floatText, req, o);
      original.Some? ==>
        && r.1 == Returned(Some(Applied(original.value, req.transformations)))
        && r.0.disk == s2.disk
        && r.0.memory == MemPut(s2.memory, FinalKeyOf(req, floatText), Applied(original.value, req.transformations), t.memoryMax)
  {
  }

  /**
   * On a full miss a fetch that throws lets the exception out and a null fetch returns
   * null, both storing nothing; a successful fetch stores the original under the base key
   * in both tiers and, with transformations, the transformed bitmap under the final key in
   * memory, and returns that.
   */
  lemma Load2FullMiss(s: RepoState, t: Tiers, floatText: Float -> string, req: ImageRequest, o: Outcomes)
    requires RepoWellFormed(s, t)
    requires Load2Lookups(s, t, floatText, req, o).1.None? && Load2Lookups(s, t, floatText, req, o).2.None?
    ensures var s2 := Load2Lookups(s, t, floatText, req, o).0;
      var r := Load2Spec(s, t, floatText, req, o);
      && (o.fetched.FetchThrew? ==> r == (s2, Threw))
      && (o.fetched.FetchedNull? ==> r == (s2, Returned(None)))
      && (o.fetched.Fetched? ==>
            var out := Applied(o.fetched.bitmap, req.transformations);
            var s3 := RepoPut(s2, t, BaseKeyOf(req), o.fetched.bitmap, o.write);
            && r.1 == Returned(Some(out))
            && (req.transformations == [] ==> r.0 == s3)
            && (req.transformations != [] ==> r.0 == StoreInMemory(s3, t, FinalKeyOf(req, floatText), out)))
  {
  }

  /**
   * When neither key is anywhere in the cache, the lookups change nothing, so a fetch
   * that yields no bitmap leaves the cache exactly as it was: null is returned, or the
   * fetch's exception escapes.
   */
  lemma Load2MissWritesNothing(s: RepoState, t: Tiers, floatText: Float -> string, req: ImageRequest, o: Outcomes)
    requires RepoWellFormed(s, t) && !o.fetched.Fetched?
    requires Lookup(s.memory, FinalKeyOf(req, floatText)) == None && Lookup(s.memory, BaseKeyOf(req)) == None
    requires HashKeyForDisk(FinalKeyOf(req, floatText), t.md5) !in s.disk.index.values
    requires HashKeyForDisk(BaseKeyOf(req), t.md5) !in s.disk.index.values
    ensures Load2Spec(s, t, floatText, req, o) == (s, if o.fetched.FetchThrew? then Threw else Returned(None))
  {
    GetAbsent(s.disk, HashKeyForDisk(FinalKeyOf(req, floatText), t.md5), o.decodeFinal);
    GetAbsent(s.disk, HashKeyForDisk(BaseKeyOf(req), t.md5), o.decodeBase);
  }

  /**
   * Whatever `load2` returns, a second `load2` of the same request returns again, from
   * the memory tier and whatever the world answers, provided that bitmap fits the memory
   * capacity.
   */
  lemma Load2ServesAgain(s: RepoState, t: Tiers, floatText: Float -> string, req: ImageRequest, o: Outcomes, o': Outcomes)
    requires RepoWellFormed(s, t)
    requires Load2Spec(s, t, floatText, req, o).1.Returned? && Load2Spec(s, t, floatText, req, o).1.bitmap.Some?
    requires SizeOf(Load2Spec(s, t, floatText, req, o).1.bitmap.value) <= t.memoryMax
    ensures var (s', r) := Load2Spec(s, t, floatText, req, o);
      Lookup(s'.memory, FinalKeyOf(req, floatText)) == r.bitmap
      && Load2Spec(s', t, floatText, req, o').1 == r
  {
    var finalKey := FinalKeyOf(req, floatText);
    var (s', r) := Load2Spec(s, t, floatText, req, o);
    var (s1, hit) := RepoGet(s, t, finalKey, o.decodeFinal);
    if hit.Some? {
      if Lookup(s.memory, finalKey).Some? {
        MemoryHitSkipsDisk(s, t, finalKey, o.decodeFinal);
      } else {
        DiskHitPromotes(s, t, finalKey, o.decodeFinal);
      }
    } else {
      var (s2, _, original) := Load2Lookups(s, t, floatText, req, o);
      if original.Some? {
        PutReplaces(s2.memory, finalKey, r.bitmap.value, t.memoryMax);
      } else {
        var s3 := RepoPut(s2, t, BaseKeyOf(req), o.fetched.bitmap, o.write);
        if req.transformations != [] {
          PutReplaces(s3.memory, finalKey, r.bitmap.value, t.memoryMax);
        } else {
          PutReplaces(s2.memory, finalKey, r.bitmap.value, t.memoryMax);
        }
      }
    }
    MemoryHitSkipsDisk(s', t, finalKey, o'.decodeFinal);
  }

  /**
   * `load` never consults the transformed key: its outcome does not depend on that key's
   * disk decode, and a cached original is transformed and stored again on every hit.
   */
  lemma LoadRetransformsEveryHit(s: RepoState, t: Tiers, floatText: Float -> string, req: ImageRequest, o: Outcomes, d: DecodeOutcome)
    requires RepoWellFormed(s, t)
    ensures LoadSpec(s, t, floatText, req, o) == LoadSpec(s, t, floatText, req, o.(decodeFinal := d))
    ensures var (s1, original) := RepoGet(s, t, BaseKeyOf(req), o.decodeBase);
      original.Some? && req.transformations != [] ==>
        var out := Applied(original.value, req.transformations);
        LoadSpec(s, t, floatText, req, o) == (StoreInMemory(s1, t, FinalKeyOf(req, floatText), out), Returned(Some(out)))
  {
  }

  /**
   * On a miss of the base key `load` fetches: a throw lets the exception out and null is
   * returned as null, both storing nothing more; a fetched bitmap is stored under the base
   * key in both tiers and, with transformations, transformed and stored under the
   * transformed key in memory.
   */
  lemma LoadMiss(s: RepoState, t: Tiers, floatText: Float -> string, req: ImageRequest, o: Outcomes)
    requires RepoWellFormed(s, t)
    requires RepoGet(s, t, BaseKeyOf(req), o.decodeBase).1.None?
    ensures var s1 := RepoGet(s, t, BaseKeyOf(req), o.decodeBase).0;
      var r := LoadSpec(s, t, floatText, req, o);
      && (o.fetched.FetchThrew? ==> r == (s1, Threw))
      && (o.fetched.FetchedNull? ==> r == (s1, Returned(None)))
      && (o.fetched.Fetched? ==>
            var out := Applied(o.fetched.bitmap, req.transformations);
            var s2 := RepoPut(s1, t, BaseKeyOf(req), o.fetched.bitmap, o.write);
            && r.1 == Returned(Some(out))
            && (req.transformations == [] ==> r.0 == s2)
            && (req.transformations != [] ==> r.0 == StoreInMemory(s2, t, FinalKeyOf(req, floatText), out)))
  {
  }

  /** The loader: one two-level cache, built from the configuration. */
  class ImageLoader {
    const cache: CacheRepositoryImpl
    const floatText: Float -> string

    ghost predicate Valid()
      reads this, cache, cache.memoryCache, cache.diskCache, cache.diskCache.cache
    {
      cache.Valid()
    }

    /** The memory tier gets `memoryCacheSize` (which the platform cache needs positive),
        the disk tier `diskCacheSize` over the directory and journal it finds. */
    constructor (config: CacheConfig, journalFile: Option<seq<string>>, directory: map<string, nat>,
                 md5: string -> Digest, floatText: Float -> string)
      requires config.memoryCacheSize > 0
      ensures Valid() && this.floatText == floatText
      ensures cache.tiers == Tiers(config.memoryCacheSize, config.diskCacheSize, md5)
      ensures cache.State() == RepoState(MemState(AccessOrder.Empty(), 0), DiskLru.Load(journalFile, directory, config.diskCacheSize))
    {
      var memoryCache := new MemoryCache(config.memoryCacheSize);
      var diskCache := new DiskCache(config.diskCacheSize, journalFile, directory, md5);
      cache := new CacheRepositoryImpl(memoryCache, diskCache);
      this.floatText := floatText;
    }

    /** `applyTransformations` changes nothing in the cache. */
    method ApplyTransformations(bitmap: Bitmap, transformations: seq<Transformation>) returns (result: Bitmap)
      ensures result == Applied(bitmap, transformations)
    {
      result := bitmap;
      for i := 0 to |transformations|
        invariant result == Applied(bitmap, transformations[..i])
      {
        assert transformations[..i + 1][..i] == transformations[..i];
        var run := Transform(transformations[i], result);
        result := run.output;
      }
      assert transformations[..|transformations|] == transformations;
    }

    /** `load2`; `Threw` stands for the fetch's exception leaving the call. */
    method Load2(request: ImageRequest, o: Outcomes) returns (result: LoadResult)
      requires Valid()
      modifies cache.memoryCache, cache.diskCache.cache
      ensures Valid() && (cache.State(), result) == Load2Spec(old(cache.State()), cache.tiers, floatText, request, o)
    {
      var ts := request.transformations;
      var baseKey := GenCacheKey(request.url, request.reqWidth, request.reqHeight, [], floatText);
      var finalKey := if ts != [] then GenCacheKey(request.url, request.reqWidth, request.reqHeight, ts, floatText) else baseKey;
      var hit := cache.Get(finalKey, o.decodeFinal);
      if hit.Some? {
        return Returned(hit);
      }
      if ts != [] {
        var original := cache.Get(baseKey, o.decodeBase);
        if original.Some? {
          var transformed := ApplyTransformations(original.value, ts);
          cache.memoryCache.Put(finalKey, transformed);
          return Returned(Some(transformed));
        }
      }
      match o.fetched {
        case FetchThrew =>
          return Threw;
        case FetchedNull =>
          return Returned(None);
        case Fetched(networkBitmap) =>
          cache.Put(baseKey, networkBitmap, o.write);
          if ts != [] {
            var transformed := ApplyTransformations(networkBitmap, ts);
            cache.memoryCache.Put(finalKey, transformed);
            return Returned(Some(transformed));
          }
          return Returned(Some(networkBitmap));
      }
    }

    /** `load`; `Threw` stands for the fetch's exception leaving the call. */
    method Load(request: ImageRequest, o: Outcomes) returns (result: LoadResult)
      requires Valid()
      modifies cache.memoryCache, cache.diskCache.cache
      ensures Valid() && (cache.State(), result) == LoadSpec(old(cache.State()), cache.tiers, floatText, request, o)
    {
      var ts := request.transformations;
      var key := GenCacheKey(request.url, request.reqWidth, request.reqHeight, [], floatText);
      var originalBitmap := cache.Get(key, o.decodeBase);
      if originalBitmap.Some? {
        if ts != [] {
          var transformedKey := GenCacheKey(request.url, request.reqWidth, request.reqHeight, ts, floatText);
          var transformedBitmap := ApplyTransformations(originalBitmap.value, ts);
          cache.memoryCache.Put(transformedKey, transformedBitmap);
          return Returned(Some(transformedBitmap));
        }
        return Returned(originalBitmap);
      }
      match o.fetched {
        case FetchThrew =>
          return Threw;
        case FetchedNull =>
          return Returned(None);
        case Fetched(networkBitmap) =>
          cache.Put(key, networkBitmap, o.write);
          if ts != [] {
            var transformedBitmap := ApplyTransformations(networkBitmap, ts);
            var transformedKey := GenCacheKey(request.url, request.reqWidth, request.reqHeight, ts, floatText);
            cache.memoryCache.Put(transformedKey, transformedBitmap);
            return Returned(Some(transformedBitmap));
          }
          return Returned(Some(networkBitmap));
      }
    }
  }
}
