/**
 * `ComposeSizeResolver.resolve`: the target size of a composable image. Each dimension is
 * the explicit request if there is one, else the measured layout size if positive, else
 * the screen size (`LocalConfiguration`, passed in).
 */
module SizeResolver {
  import opened Wrappers

  datatype IntSize = IntSize(width: int, height: int)

  /** `takeIf { it > 0 }`. */
  function TakeIfPositive(v: int): (r: Option<int>)
    ensures r.Some? <==> v > 0
    ensures r.Some? ==> r.value == v
  {
    if v > 0 then Some(v) else None
  }

  /** `req ?: layout?.takeIf { it > 0 } ?: screen`. */
  function Fallback(req: Option<int>, layout: Option<int>, screen: int): int {
    match req
    case Some(r) => r
    case None =>
      match layout
      case Some(l) => TakeIfPositive(l).GetOr(screen)
      case None => screen
  }

  function LayoutWidth(s: Option<IntSize>): Option<int> {
    match s
    case Some(size) => Some(size.width)
    case None => None
  }

  function LayoutHeight(s: Option<IntSize>): Option<int> {
    match s
    case Some(size) => Some(size.height)
    case None => None
  }

  function Resolve(reqWidth: Option<int>, reqHeight: Option<int>, sizeFromLayout: Option<IntSize>,
                   screenWidth: int, screenHeight: int): (size: (int, int))
    ensures reqWidth.Some? ==> size.0 == reqWidth.value
    ensures reqWidth.None? && sizeFromLayout.Some? && sizeFromLayout.value.width > 0 ==>
      size.0 == sizeFromLayout.value.width
    ensures reqWidth.None? && (sizeFromLayout.None? || sizeFromLayout.value.width <= 0) ==>
      size.0 == screenWidth
    ensures reqHeight.Some? ==> size.1 == reqHeight.value
    ensures reqHeight.None? && sizeFromLayout.Some? && sizeFromLayout.value.height > 0 ==>
      size.1 == sizeFromLayout.value.height
    ensures reqHeight.None? && (sizeFromLayout.None? || sizeFromLayout.value.height <= 0) ==>
      size.1 == screenHeight
  {
    (Fallback(reqWidth, LayoutWidth(sizeFromLayout), screenWidth),
     Fallback(reqHeight, LayoutHeight(sizeFromLayout), screenHeight))
  }

  /** The width never depends on anything about height, and the height never on width. */
  lemma ResolveIndependent(reqWidth: Option<int>, reqWidth': Option<int>, reqHeight: Option<int>, reqHeight': Option<int>,
                           w: int, w': int, h: int, h': int,
                           screenWidth: int, screenWidth': int, screenHeight: int, screenHeight': int)
    ensures Resolve(reqWidth, reqHeight, Some(IntSize(w, h)), screenWidth, screenHeight).0
         == Resolve(reqWidth, reqHeight', Some(IntSize(w, h')), screenWidth, screenHeight').0
    ensures Resolve(reqWidth, reqHeight, Some(IntSize(w, h)), screenWidth, screenHeight).1
         == Resolve(reqWidth', reqHeight, Some(IntSize(w', h)), screenWidth', screenHeight).1
  {
  }

  /** An explicit request is kept even when it is zero or negative. */
  lemma ResolveKeepsNonPositiveRequest(v: int, layout: Option<IntSize>, screenWidth: int, screenHeight: int)
    requires v <= 0
    ensures Resolve(Some(v), Some(v), layout, screenWidth, screenHeight) == (v, v)
  {
  }
}
