/**
 * The paging state machine of the image viewer: the index of the shown
 * page, the resting horizontal offset of that page (`standardPositionX`) and
 * the live offset of the strip of pages (`positionXNumber`). Each animation
 * is reduced to the value it animates to.
 */
module Paging {

  import opened Wrappers

  /** The container width and the layout direction (`I18nManager.isRTL`). */
  datatype Layout = Layout(width: real, isRTL: bool)

  /** `currentShowIndex`, `standardPositionX` and `positionXNumber`. */
  datatype Pager = Pager(index: int, standard: real, position: real)

  /** A release faster than this flips the page whatever the drag distance. */
  const FlingVelocity: real := 0.7

  /** The offset at which page `index` is in view (the jump target). */
  function PageOffset(l: Layout, index: int): (r: real)
    ensures l.isRTL ==> r == l.width * (index as real)
    ensures !l.isRTL ==> r == -(l.width * (index as real))
  {
    l.width * (index as real) * (if l.isRTL then 1.0 else -1.0)
  }

  /** The resting offset shows the page at the current index. */
  predicate Aligned(l: Layout, p: Pager) {
    p.standard == PageOffset(l, p.index)
  }

  /** The live offset is the resting offset: no drag is in progress. */
  predicate AtRest(p: Pager) {
    p.position == p.standard
  }

  /** `resetPosition`: the strip returns to the resting offset. */
  function Reset(p: Pager): (r: Pager)
    ensures AtRest(r) && r.index == p.index && r.standard == p.standard
  {
    p.(position := p.standard)
  }

  /** `goBack`: to the previous page, or back to rest on the first. */
  function GoBack(l: Layout, p: Pager): (r: Pager)
    ensures AtRest(r)
    ensures p.index == 0 ==> r == Reset(p)
    ensures p.index != 0 ==> r.index == p.index - 1 && r.standard == p.standard - PageOffset(l, 1)
  {
    if p.index == 0 then Reset(p)
    else
      var x := if !l.isRTL then p.standard + l.width else p.standard - l.width;
      Pager(p.index - 1, x, x)
  }

  /** `goNext`: to the next page, or back to rest on the last (index n - 1). */
  function GoNext(l: Layout, n: int, p: Pager): (r: Pager)
    ensures AtRest(r)
    ensures p.index == n - 1 ==> r == Reset(p)
    ensures p.index != n - 1 ==> r.index == p.index + 1 && r.standard == p.standard + PageOffset(l, 1)
  {
    if p.index == n - 1 then Reset(p)
    else
      var x := if !l.isRTL then p.standard - l.width else p.standard + l.width;
      Pager(p.index + 1, x, x)
  }

  /** `handleHorizontalOuterRangeOffset`: the strip follows the drag. */
  function Drag(p: Pager, offsetX: real): (r: Pager)
    ensures r.index == p.index && r.standard == p.standard
    ensures r.position - r.standard == offsetX
  {
    p.(position := p.standard + offsetX)
  }

  /** `jumpToCurrentImage`: move both offsets to the current page, unless the strip is there already. */
  function Jump(l: Layout, p: Pager): (r: Pager)
    ensures r.index == p.index
    ensures p.position == PageOffset(l, p.index) ==> r == p
    ensures p.position != PageOffset(l, p.index) ==> Aligned(l, r) && AtRest(r)
  {
    var target := PageOffset(l, p.index);
    if target == p.position then p else Pager(p.index, target, target)
  }

  /** Where a release sends the viewer. */
  datatype Decision = ToPrevious | ToNext | StayPut

  /** The velocity as seen in the reading direction (positive: towards the previous page). */
  function DirectedVelocity(l: Layout, vx: real): real {
    if l.isRTL then -vx else vx
  }

  /** The drag distance as seen in the reading direction (positive: towards the previous page). */
  function DirectedDrag(l: Layout, p: Pager): real {
    if l.isRTL then p.standard - p.position else p.position - p.standard
  }

  /**
   * The decision of `handleResponderRelease`: a fling decides first, then a
   * drag beyond the threshold, else the page stays.
   */
  function ReleaseDecision(l: Layout, threshold: real, p: Pager, vx: real): (r: Decision)
    ensures DirectedVelocity(l, vx) > FlingVelocity ==> r == ToPrevious
    ensures DirectedVelocity(l, vx) < -FlingVelocity ==> r == ToNext
    ensures -FlingVelocity <= DirectedVelocity(l, vx) <= FlingVelocity ==>
      r == if DirectedDrag(l, p) > threshold then ToPrevious
           else if DirectedDrag(l, p) < -threshold then ToNext
           else StayPut
  {
    var vxRTL := DirectedVelocity(l, vx);
    var isLeftMove := if l.isRTL then p.position - p.standard < -threshold
                      else p.position - p.standard > threshold;
    var isRightMove := if l.isRTL then p.position - p.standard > threshold
                       else p.position - p.standard < -threshold;
    if vxRTL > FlingVelocity then ToPrevious
    else if vxRTL < -FlingVelocity then ToNext
    else if isLeftMove then ToPrevious
    else if isRightMove then ToNext
    else StayPut
  }

  /** The pager after `handleResponderRelease`. */
  function Release(l: Layout, n: int, threshold: real, p: Pager, vx: real): (r: Pager)
    ensures AtRest(r)
    ensures r.index == p.index || r.index == p.index - 1 || r.index == p.index + 1
    ensures ReleaseDecision(l, threshold, p, vx) == ToPrevious ==> r == GoBack(l, p)
    ensures ReleaseDecision(l, threshold, p, vx) == ToNext ==> r == GoNext(l, n, p)
    ensures ReleaseDecision(l, threshold, p, vx) == StayPut ==> r == Reset(p)
  {
    match ReleaseDecision(l, threshold, p, vx)
    case ToPrevious => GoBack(l, p)
    case ToNext => GoNext(l, n, p)
    case StayPut => Reset(p)
  }

  /** The guard `index || 0 < n - 1` as JavaScript parses it: `index || (0 < n - 1)`. */
  predicate NextGuard(index: int, n: int)
    ensures index < n - 1 ==> NextGuard(index, n)
    ensures NextGuard(index, n) && !(index < n - 1) ==> index + 1 >= n
  {
    index != 0 || 0 < n - 1
  }

  /** The guard `index || 0 > 0` as JavaScript parses it: `index || (0 > 0)`. */
  predicate PreviousGuard(index: int)
    ensures index > 0 ==> PreviousGuard(index)
    ensures PreviousGuard(index) && !(index > 0) ==> index - 1 < 0
  {
    index != 0
  }

  /** The index whose image `handleHorizontalOuterRangeOffset` asks for, if any. */
  function DragLoad(l: Layout, n: int, index: int, offsetX: real): (r: Option<int>)
    ensures (if l.isRTL then -offsetX else offsetX) == 0.0 ==> r == None
    ensures (if l.isRTL then -offsetX else offsetX) < 0.0 ==>
      (index < n - 1 ==> r == Some(index + 1)) && (r.Some? ==> r.value == index + 1)
    ensures (if l.isRTL then -offsetX else offsetX) > 0.0 ==>
      (index > 0 ==> r == Some(index - 1)) && (r.Some? ==> r.value == index - 1)
  {
    var offsetXRTL := if !l.isRTL then offsetX else -offsetX;
    if offsetXRTL < 0.0 then (if NextGuard(index, n) then Some(index + 1) else None)
    else if offsetXRTL > 0.0 then (if PreviousGuard(index) then Some(index - 1) else None)
    else None
  }

  /**
   * The index whose image `handleResponderRelease` asks for, if any: only a
   * fling loads, and it reads the index from before the page change.
   */
  function ReleaseLoad(l: Layout, n: int, index: int, vx: real): (r: Option<int>)
    ensures -FlingVelocity <= DirectedVelocity(l, vx) <= FlingVelocity ==> r == None
    ensures DirectedVelocity(l, vx) > FlingVelocity ==>
      (index > 0 ==> r == Some(index - 1)) && (r.Some? ==> r.value == index - 1)
    ensures DirectedVelocity(l, vx) < -FlingVelocity ==>
      (index < n - 1 ==> r == Some(index + 1)) && (r.Some? ==> r.value == index + 1)
  {
    var vxRTL := DirectedVelocity(l, vx);
    if vxRTL > FlingVelocity then (if PreviousGuard(index) then Some(index - 1) else None)
    else if vxRTL < -FlingVelocity then (if NextGuard(index, n) then Some(index + 1) else None)
    else None
  }

  /** A fling decides alone: two releases with the same velocity past the limit agree whatever the drags were. */
  lemma FlingIgnoresDrag(l: Layout, threshold: real, p: Pager, q: Pager, vx: real)
    requires DirectedVelocity(l, vx) > FlingVelocity || DirectedVelocity(l, vx) < -FlingVelocity
    ensures ReleaseDecision(l, threshold, p, vx) == ReleaseDecision(l, threshold, q, vx)
  {
  }

  /** One page step is one container width, against the reading direction. */
  lemma PageStep(l: Layout, index: int)
    ensures PageOffset(l, index + 1) == PageOffset(l, index) + PageOffset(l, 1)
    ensures PageOffset(l, 1) == if l.isRTL then l.width else -l.width
  {
  }

  /** Moving a page keeps the resting offset on the shown page. */
  lemma StepsKeepAligned(l: Layout, n: int, p: Pager)
    requires Aligned(l, p)
    ensures Aligned(l, GoBack(l, p)) && Aligned(l, GoNext(l, n, p))
  {
  }

  /** With at least one image, every operation keeps the index in [0, n - 1]. */
  lemma StepsKeepRange(l: Layout, n: int, threshold: real, p: Pager, vx: real, offsetX: real)
    requires n >= 1 && 0 <= p.index < n
    ensures 0 <= GoBack(l, p).index < n
    ensures 0 <= GoNext(l, n, p).index < n
    ensures 0 <= Release(l, n, threshold, p, vx).index < n
    ensures Reset(p).index == Drag(p, offsetX).index == Jump(l, p).index == p.index
  {
  }

  /** With no images, `goNext` at index 0 compares against -1 and advances. */
  lemma EmptyGalleryGoNextAdvances(l: Layout, p: Pager)
    requires p.index == 0
    ensures GoNext(l, 0, p).index == 1
  {
  }

  /** `goNext` undoes `goBack` and vice versa, on interior pages at rest. */
  lemma BackAndNextAreInverse(l: Layout, n: int, p: Pager)
    requires AtRest(p)
    ensures p.index != 0 && p.index - 1 != n - 1 ==> GoNext(l, n, GoBack(l, p)) == p
    ensures p.index != n - 1 && p.index + 1 != 0 ==> GoBack(l, GoNext(l, n, p)) == p
  {
  }

  /** The same pager seen in the other reading direction: offsets negated. */
  function Mirror(p: Pager): Pager {
    Pager(p.index, -p.standard, -p.position)
  }

  /** Under RTL, goBack, goNext and the jump are the left-to-right ones on the mirrored pager. */
  lemma MirrorSteps(width: real, n: int, p: Pager)
    ensures var rtl, ltr := Layout(width, true), Layout(width, false);
      && GoBack(rtl, p) == Mirror(GoBack(ltr, Mirror(p)))
      && GoNext(rtl, n, p) == Mirror(GoNext(ltr, n, Mirror(p)))
      && Jump(rtl, p) == Mirror(Jump(ltr, Mirror(p)))
  {
  }

  /** Under RTL, a release decides as the left-to-right one on the mirrored pager with the velocity negated. */
  lemma MirrorDecision(width: real, threshold: real, p: Pager, vx: real)
    ensures ReleaseDecision(Layout(width, true), threshold, p, vx) ==
            ReleaseDecision(Layout(width, false), threshold, Mirror(p), -vx)
  {
  }

  /**
   * Under RTL, a release and the images a drag or a release asks for are the
   * left-to-right ones with the pager mirrored and the velocity and drag negated.
   */
  lemma RightToLeftGesturesMirror(width: real, n: int, threshold: real, p: Pager, vx: real, offsetX: real)
    ensures var rtl, ltr := Layout(width, true), Layout(width, false);
      && Release(rtl, n, threshold, p, vx) == Mirror(Release(ltr, n, threshold, Mirror(p), -vx))
      && DragLoad(rtl, n, p.index, offsetX) == DragLoad(ltr, n, p.index, -offsetX)
      && ReleaseLoad(rtl, n, p.index, vx) == ReleaseLoad(ltr, n, p.index, -vx)
  {
    MirrorSteps(width, n, p);
    MirrorDecision(width, threshold, p, vx);
  }

  /**
   * With the container not yet measured (width 0), the jump from the initial
   * pager does nothing, and for a non-zero index that pager does not show the
   * page any width other than 0 would put in view.
   */
  lemma MountWithZeroWidth(isRTL: bool, index: int, width: real)
    ensures Jump(Layout(0.0, isRTL), Pager(index, 0.0, 0.0)) == Pager(index, 0.0, 0.0)
    ensures index != 0 && width != 0.0 ==> !Aligned(Layout(width, isRTL), Pager(index, 0.0, 0.0))
  {
  }

  /** One event of the paging state machine. */
  datatype Gesture = Previous | Next | Settle | DragBy(offsetX: real) | ReleaseAt(vx: real) | JumpToCurrent

  /** The pager after one event. */
  function Apply(l: Layout, n: int, threshold: real, p: Pager, g: Gesture): Pager {
    match g
    case Previous => GoBack(l, p)
    case Next => GoNext(l, n, p)
    case Settle => Reset(p)
    case DragBy(o) => Drag(p, o)
    case ReleaseAt(vx) => Release(l, n, threshold, p, vx)
    case JumpToCurrent => Jump(l, p)
  }

  /** The pager after a sequence of events, in order. */
  function Run(l: Layout, n: int, threshold: real, p: Pager, gs: seq<Gesture>): Pager
    decreases |gs|
  {
    if gs == [] then p else Run(l, n, threshold, Apply(l, n, threshold, p, gs[0]), gs[1..])
  }

  /**
   * From an aligned pager on a valid page, any sequence of events keeps the
   * resting offset on the shown page and the index in [0, n - 1].
   */
  lemma {:induction false} RunKeepsPageInvariant(l: Layout, n: int, threshold: real, p: Pager, gs: seq<Gesture>)
    requires n >= 1 && 0 <= p.index < n && Aligned(l, p)
    ensures var r := Run(l, n, threshold, p, gs);
            0 <= r.index < n && Aligned(l, r)
    decreases |gs|
  {
    if gs != [] {
      var q := Apply(l, n, threshold, p, gs[0]);
      StepsKeepAligned(l, n, p);
      StepsKeepRange(l, n, threshold, p, 0.0, 0.0);
      if gs[0].ReleaseAt? {
        StepsKeepRange(l, n, threshold, p, gs[0].vx, 0.0);
      }
      RunKeepsPageInvariant(l, n, threshold, q, gs[1..]);
    }
  }
}
