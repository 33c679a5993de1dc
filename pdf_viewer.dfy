/** The PDF viewer (`src/app/components/PdfViewerClient.tsx`): its zoom state, the width its
    pages are drawn at, and the list of pages it draws. */
module PdfViewer {
  import opened Wrappers

  /** `pdfZoom`: `'page-width'`, or a percentage held as its decimal string. */
  datatype Zoom = PageWidth | Percent(p: int)

  const ZoomStep: int := 25
  const MinZoom: int := 50
  const MaxZoom: int := 300
  /** The percentage the first zoom-in from page width gives. */
  const FirstZoom: int := 125
  /** The narrowest page drawn when zoomed. */
  const MinWidth: int := 200
  /** Widest `window.innerWidth` that counts as mobile. */
  const MobileMaxWidth: int := 768
  /** Padding taken off the container width on mobile. */
  const MobilePadding: int := 16

  function Min(a: int, b: int): int { if a <= b then a else b }
  function Max(a: int, b: int): int { if a >= b then a else b }

  // ----- zoom -----

  /** `zoomIn`. */
  function ZoomIn(z: Zoom): (r: Zoom)
    ensures r.Percent?
    ensures z.PageWidth? ==> r == Percent(FirstZoom)
    ensures z.Percent? && z.p + ZoomStep <= MaxZoom ==> r.p == z.p + ZoomStep
    ensures z.Percent? && z.p + ZoomStep > MaxZoom ==> r.p == MaxZoom
  {
    match z
    case PageWidth => Percent(FirstZoom)
    case Percent(c) => Percent(Min(c + ZoomStep, MaxZoom))
  }

  /** `zoomOut`: nothing at page width. */
  function ZoomOut(z: Zoom): (r: Zoom)
    ensures z.PageWidth? <==> r.PageWidth?
    ensures z.Percent? && z.p - ZoomStep >= MinZoom ==> r.p == z.p - ZoomStep
    ensures z.Percent? && z.p - ZoomStep < MinZoom ==> r.p == MinZoom
  {
    match z
    case PageWidth => PageWidth
    case Percent(c) => Percent(Max(c - ZoomStep, MinZoom))
  }

  /** The zoom values the buttons can produce: page width, or a multiple of 25 from 50 to 300. */
  predicate ValidZoom(z: Zoom) {
    z.PageWidth? || (MinZoom <= z.p <= MaxZoom && z.p % ZoomStep == 0)
  }

  /** Both buttons keep the zoom valid. */
  lemma ZoomKeepsValid(z: Zoom)
    requires ValidZoom(z)
    ensures ValidZoom(ZoomIn(z)) && ValidZoom(ZoomOut(z))
  {
  }

  /** Zooming out undoes zooming in below the maximum, and zooming in undoes zooming out above the minimum. */
  lemma ZoomInverse(p: int)
    requires ValidZoom(Percent(p))
    ensures p < MaxZoom ==> ZoomOut(ZoomIn(Percent(p))) == Percent(p)
    ensures p > MinZoom ==> ZoomIn(ZoomOut(Percent(p))) == Percent(p)
  {
  }

  /** A toolbar button, or one of the effects that reset the zoom. */
  datatype Action = In | Out | Fit

  /** The zoom after one action. */
  function Step(z: Zoom, a: Action): Zoom {
    match a
    case In => ZoomIn(z)
    case Out => ZoomOut(z)
    case Fit => PageWidth
  }

  /** The zoom after pressing `actions` in order, starting from `z`. */
  function Apply(z: Zoom, actions: seq<Action>): Zoom
    decreases |actions|
  {
    if |actions| == 0 then z else Apply(Step(z, actions[0]), actions[1..])
  }

  /** Whatever is pressed, a valid zoom stays valid. */
  lemma {:induction false} ApplyKeepsValid(z: Zoom, actions: seq<Action>)
    requires ValidZoom(z)
    ensures ValidZoom(Apply(z, actions))
    decreases |actions|
  {
    if |actions| > 0 {
      ZoomKeepsValid(z);
      ApplyKeepsValid(Step(z, actions[0]), actions[1..]);
    }
  }

  /** `n` presses of one button. */
  function Repeat(a: Action, n: nat): (r: seq<Action>)
    ensures |r| == n && forall i :: 0 <= i < n ==> r[i] == a
  {
    if n == 0 then [] else [a] + Repeat(a, n - 1)
  }

  /** Pressing zoom-in `n` times from a multiple of 25 climbs in steps of 25 while it stays within the maximum. */
  lemma {:induction false} ClimbBy(p: int, n: nat)
    requires p + ZoomStep * n <= MaxZoom
    ensures Apply(Percent(p), Repeat(In, n)) == Percent(p + ZoomStep * n)
    decreases n
  {
    if n > 0 {
      assert Repeat(In, n)[1..] == Repeat(In, n - 1);
      ClimbBy(p + ZoomStep, n - 1);
    }
  }

  /** Pressing zoom-out `n` times descends in steps of 25 while it stays within the minimum. */
  lemma {:induction false} DescendBy(p: int, n: nat)
    requires p - ZoomStep * n >= MinZoom
    ensures Apply(Percent(p), Repeat(Out, n)) == Percent(p - ZoomStep * n)
    decreases n
  {
    if n > 0 {
      assert Repeat(Out, n)[1..] == Repeat(Out, n - 1);
      DescendBy(p - ZoomStep, n - 1);
    }
  }

  /** Pressing `a` then `b` is pressing `a` and then, from where it left the zoom, `b`. */
  lemma {:induction false} ApplyAppend(z: Zoom, a: seq<Action>, b: seq<Action>)
    ensures Apply(z, a + b) == Apply(Apply(z, a), b)
    decreases |a|
  {
    if |a| > 0 {
      assert (a + b)[0] == a[0];
      assert (a + b)[1..] == a[1..] + b;
      ApplyAppend(Step(z, a[0]), a[1..], b);
      assert Apply(z, a + b) == Apply(Step(z, a[0]), a[1..] + b);
    } else {
      assert a + b == b;
    }
  }

  /** The presses that lead from page width to a valid zoom. */
  function PathTo(z: Zoom): seq<Action>
    requires ValidZoom(z)
  {
    if z.PageWidth? then []
    else if z.p >= FirstZoom then [In] + Repeat(In, (z.p - FirstZoom) / ZoomStep)
    else [In] + Repeat(Out, (FirstZoom - z.p) / ZoomStep)
  }

  /** Every valid zoom can be reached from page width with the buttons, so the valid zooms are
      exactly the reachable ones. */
  lemma ValidIsReachable(z: Zoom)
    requires ValidZoom(z)
    ensures Apply(PageWidth, PathTo(z)) == z
  {
    if z.Percent? {
      assert Apply(PageWidth, [In]) == Percent(FirstZoom);
      if z.p >= FirstZoom {
        var n := (z.p - FirstZoom) / ZoomStep;
        ApplyAppend(PageWidth, [In], Repeat(In, n));
        ClimbBy(FirstZoom, n);
      } else {
        var n := (FirstZoom - z.p) / ZoomStep;
        ApplyAppend(PageWidth, [In], Repeat(Out, n));
        DescendBy(FirstZoom, n);
      }
    }
  }

  // ----- widths and pages -----

  /** `viewerWidth` for the container's `clientWidth` and `window.innerWidth`. */
  function ViewerWidth(containerWidth: int, innerWidth: int): (w: int)
    ensures innerWidth <= MobileMaxWidth ==> w == containerWidth - MobilePadding
    ensures innerWidth > MobileMaxWidth ==> w == containerWidth
  {
    if innerWidth <= MobileMaxWidth then containerWidth - MobilePadding else containerWidth
  }

  /** `computedWidth`: the viewer's width at page width, else that width scaled by the
      percentage, rounded down, and never under 200. */
  function ComputedWidth(z: Zoom, viewerWidth: int): int {
    match z
    case PageWidth => viewerWidth
    case Percent(p) => Max(MinWidth, (viewerWidth * p) / 100)
  }

  /** At page width the page is drawn at the viewer's width; when zoomed, at the scaled width
      rounded down, except that it is raised to 200. */
  lemma ComputedWidthScales(p: int, viewerWidth: int)
    ensures ComputedWidth(PageWidth, viewerWidth) == viewerWidth
    ensures ComputedWidth(Percent(p), viewerWidth) >= MinWidth
    ensures viewerWidth * p >= MinWidth * 100 ==>
      ComputedWidth(Percent(p), viewerWidth) * 100 <= viewerWidth * p < ComputedWidth(Percent(p), viewerWidth) * 100 + 100
    ensures viewerWidth * p < MinWidth * 100 ==> ComputedWidth(Percent(p), viewerWidth) == MinWidth
  {
    var q := (viewerWidth * p) / 100;
    assert q * 100 <= viewerWidth * p < q * 100 + 100;
  }

  /** Zooming in never draws a narrower page, on a viewer of non-negative width. */
  lemma ZoomInWidens(z: Zoom, viewerWidth: int)
    requires ValidZoom(z) && z.Percent? && viewerWidth >= 0
    ensures ComputedWidth(z, viewerWidth) <= ComputedWidth(ZoomIn(z), viewerWidth)
  {
    var p, p' := z.p, ZoomIn(z).p;
    assert viewerWidth * p <= viewerWidth * p' by {
      assert viewerWidth * p' - viewerWidth * p == viewerWidth * (p' - p);
    }
    DivMonotone(viewerWidth * p, viewerWidth * p');
  }

  /** Rounding down after dividing by 100 keeps order. */
  lemma DivMonotone(a: int, b: int)
    requires a <= b
    ensures a / 100 <= b / 100
  {
    var qa, qb := a / 100, b / 100;
    assert qa * 100 <= a < qa * 100 + 100;
    assert qb * 100 <= b < qb * 100 + 100;
  }

  /** The page numbers drawn once `numPages` is known: 1 to `numPages`; none while it is `null`
      or not positive. */
  function Pages(numPages: Option<int>): (r: seq<int>)
    ensures |r| == (if numPages.Some? && numPages.value > 0 then numPages.value else 0)
    ensures forall i :: 0 <= i < |r| ==> r[i] == i + 1
  {
    if numPages.None? || numPages.value <= 0 then []
    else seq(numPages.value, i => i + 1)
  }

  /** The pages are drawn in ascending order, each page of the document exactly once. */
  lemma PagesInOrder(numPages: int, page: int)
    ensures page in Pages(Some(numPages)) <==> 1 <= page <= numPages
    ensures forall i, j :: 0 <= i < j < |Pages(Some(numPages))| ==> Pages(Some(numPages))[i] < Pages(Some(numPages))[j]
  {
    var r := Pages(Some(numPages));
    if 1 <= page <= numPages {
      assert r[page - 1] == page;
    }
  }

  // ----- the component -----

  class Viewer {
    var zoom: Zoom
    var viewerWidth: int
    var numPages: Option<int>

    predicate Valid()
      reads this
    {
      ValidZoom(zoom)
    }

    /** The viewer when it mounts: page width, no width measured, no document loaded. */
    constructor()
      ensures Valid() && zoom == PageWidth && viewerWidth == 0 && numPages == None
    {
      zoom := PageWidth;
      viewerWidth := 0;
      numPages := None;
    }

    /** The zoom-in button. */
    method PressZoomIn()
      requires Valid()
      modifies this
      ensures Valid() && zoom == ZoomIn(old(zoom))
      ensures viewerWidth == old(viewerWidth) && numPages == old(numPages)
    {
      zoom := ZoomIn(zoom);
    }

    /** The zoom-out button. */
    method PressZoomOut()
      requires Valid()
      modifies this
      ensures Valid() && zoom == ZoomOut(old(zoom))
      ensures viewerWidth == old(viewerWidth) && numPages == old(numPages)
    {
      zoom := ZoomOut(zoom);
    }

    /** The fit button, and the effect that runs when the file changes. */
    method FitToWidth()
      modifies this
      ensures Valid() && zoom == PageWidth
      ensures viewerWidth == old(viewerWidth) && numPages == old(numPages)
    {
      zoom := PageWidth;
    }

    /** The effect on a change of file or visibility: back to page width on a visible mobile viewer. */
    method ResetOnMobile(innerWidth: int, isVisible: bool)
      requires Valid()
      modifies this
      ensures Valid()
      ensures zoom == (if innerWidth <= MobileMaxWidth && isVisible then PageWidth else old(zoom))
      ensures viewerWidth == old(viewerWidth) && numPages == old(numPages)
    {
      if innerWidth <= MobileMaxWidth && isVisible {
        zoom := PageWidth;
      }
    }

    /** `updateWidth`, on mount and on each resize; `containerWidth` is `None` while the container
        is not mounted. */
    method UpdateWidth(containerWidth: Option<int>, innerWidth: int)
      modifies this
      ensures containerWidth.Some? ==> viewerWidth == ViewerWidth(containerWidth.value, innerWidth)
      ensures containerWidth.None? ==> viewerWidth == old(viewerWidth)
      ensures zoom == old(zoom) && numPages == old(numPages)
    {
      if containerWidth.Some? {
        viewerWidth := ViewerWidth(containerWidth.value, innerWidth);
      }
    }

    /** `onDocumentLoadSuccess`. */
    method LoadSuccess(n: int)
      modifies this
      ensures numPages == Some(n)
      ensures zoom == old(zoom) && viewerWidth == old(viewerWidth)
    {
      numPages := Some(n);
    }
  }
}
