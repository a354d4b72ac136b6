/**
 * The `ImageViewer` component as a state machine: paging through the
 * images with gestures and arrows, and loading each image's size once.
 * React's `setState` is taken to apply when the handler that calls it
 * returns; animations are reduced to the value they animate to.
 */
module Viewer {

  import opened Wrappers
  import ImageLoading
  import Paging

  /** The part of the state `getDerivedStateFromProps` returns. */
  datatype IndexUpdate = IndexUpdate(currentShowIndex: int, prevIndexProp: int)

  class ImageViewer {

    // Props and environment, fixed for the life of the model.
    const imageUrls: seq<ImageLoading.ImageInfo>
    const indexProp: int
    const flipThreshold: real
    const enablePreload: bool
    const saveToLocalByLongPress: bool
    const isRTL: bool
    /** The measured container width. */
    const width: real

    // Component state.
    var currentShowIndex: int
    var prevIndexProp: int
    var imageSizes: seq<ImageLoading.ImageSize>
    var isShowMenu: bool

    // Instance fields.
    var standardPositionX: real
    var positionXNumber: real
    var loadedIndex: set<int>
    /** The urls handed to `Image.prefetch`, in order. */
    var prefetched: seq<string>

    /** One size entry per image, and an entry that was never requested is still loading. */
    ghost predicate Valid()
      reads this
    {
      |imageSizes| == |imageUrls| && ImageLoading.UnrequestedAreLoading(ImageState())
    }

    function ImageState(): ImageLoading.Images
      reads this
    {
      ImageLoading.Images(imageSizes, loadedIndex, prefetched)
    }

    function PagerState(): Paging.Pager
      reads this
    {
      Paging.Pager(currentShowIndex, standardPositionX, positionXNumber)
    }

    function Layout(): Paging.Layout {
      Paging.Layout(width, isRTL)
    }

    /**
     * The component's initial state, then `componentDidMount`, which runs
     * `init` with the component's props.
     */
    constructor (urls: seq<ImageLoading.ImageInfo>, index: int, flipThreshold: real, enablePreload: bool,
                 saveToLocalByLongPress: bool, isRTL: bool, width: real, probe: ImageLoading.Probe)
      ensures Valid()
      ensures imageUrls == urls && indexProp == index && this.flipThreshold == flipThreshold
      ensures this.enablePreload == enablePreload && this.saveToLocalByLongPress == saveToLocalByLongPress
      ensures this.isRTL == isRTL && this.width == width
      ensures currentShowIndex == index && prevIndexProp == index && !isShowMenu
      ensures ImageState() ==
        ImageLoading.Load(ImageLoading.Images(ImageLoading.InitialSizes(urls), {}, []), urls, enablePreload, index, probe)
      ensures PagerState() == Paging.Jump(Layout(), Paging.Pager(index, 0.0, 0.0))
    {
      imageUrls, indexProp := urls, index;
      this.flipThreshold, this.enablePreload, this.saveToLocalByLongPress := flipThreshold, enablePreload, saveToLocalByLongPress;
      this.isRTL, this.width := isRTL, width;
      currentShowIndex, prevIndexProp, imageSizes, isShowMenu := 0, 0, [], false;
      standardPositionX, positionXNumber := 0.0, 0.0;
      loadedIndex, prefetched := {}, [];
      new;
      Init(probe);
    }

    /**
     * `getDerivedStateFromProps`: a new `index` prop takes over the shown
     * page; an unchanged one leaves the page the user has moved to.
     */
    static function DerivedStateFromProps(nextIndex: int, prevIndexProp: int): (r: Option<IndexUpdate>)
      ensures r.Some? <==> nextIndex != prevIndexProp
      ensures r.Some? ==> r.value == IndexUpdate(nextIndex, nextIndex)
    {
      if nextIndex != prevIndexProp then Some(IndexUpdate(nextIndex, nextIndex)) else None
    }

    /** Once React has merged the update, the same prop asks for nothing more. */
    static lemma DerivedStateSettles(nextIndex: int, prevIndexProp: int)
      ensures var r := DerivedStateFromProps(nextIndex, prevIndexProp);
              r.Some? ==> DerivedStateFromProps(nextIndex, r.value.prevIndexProp).None?
    {
    }

    /** React merging the result of `getDerivedStateFromProps` for a new `index` prop into the state. */
    method ApplyDerivedState(nextIndex: int)
      modifies this`currentShowIndex, this`prevIndexProp
      ensures prevIndexProp == nextIndex
      ensures old(prevIndexProp) != nextIndex ==> currentShowIndex == nextIndex
      ensures old(prevIndexProp) == nextIndex ==> currentShowIndex == old(currentShowIndex)
    {
      match DerivedStateFromProps(nextIndex, prevIndexProp)
      case Some(u) =>
        currentShowIndex, prevIndexProp := u.currentShowIndex, u.prevIndexProp;
      case None =>
    }

    /**
     * `init`: one loading entry per image, the shown page set from the
     * `index` prop; then (the `setState` callback) the shown image is loaded
     * and the strip jumps to it.
     */
    method Init(probe: ImageLoading.Probe)
      modifies this`currentShowIndex, this`prevIndexProp, this`imageSizes, this`loadedIndex, this`prefetched
      modifies this`standardPositionX, this`positionXNumber
      ensures Valid()
      ensures currentShowIndex == indexProp && prevIndexProp == indexProp
      ensures ImageState() ==
        ImageLoading.Load(ImageLoading.Images(ImageLoading.InitialSizes(imageUrls), old(loadedIndex), old(prefetched)),
                          imageUrls, enablePreload, indexProp, probe)
      ensures PagerState() == Paging.Jump(Layout(), Paging.Pager(indexProp, old(standardPositionX), old(positionXNumber)))
    {
      var sizes := ImageLoading.BuildImageSizes(imageUrls);
      currentShowIndex, prevIndexProp, imageSizes := indexProp, indexProp, sizes;
      LoadImage(indexProp, probe);
      JumpToCurrentImage();
    }

    /** `jumpToCurrentImage`: put the strip at the shown page, unless it is there already. */
    method JumpToCurrentImage()
      modifies this`standardPositionX, this`positionXNumber
      ensures PagerState() == Paging.Jump(Layout(), old(PagerState()))
    {
      var newPositionXNumber := width * (currentShowIndex as real) * (if isRTL then 1.0 else -1.0);
      if newPositionXNumber == positionXNumber {
        return;
      }
      positionXNumber := newPositionXNumber;
      standardPositionX := positionXNumber;
    }

    /** `loadImage`: request the size of image `index` once and settle its entry. */
    method LoadImage(index: int, probe: ImageLoading.Probe)
      requires Valid()
      modifies this`imageSizes, this`loadedIndex, this`prefetched
      ensures Valid()
      ensures ImageState() == ImageLoading.Load(old(ImageState()), imageUrls, enablePreload, index, probe)
    {
      ImageLoading.LoadKeepsBookkeeping(ImageState(), imageUrls, enablePreload, index, probe);
      if !(0 <= index < |imageSizes|) {
        return;
      }
      if index in loadedIndex {
        return;
      }
      loadedIndex := loadedIndex + {index};

      var image := imageUrls[index];
      var imageStatus := imageSizes[index];

      if imageSizes[index].status == ImageLoading.Success {
        return;
      }

      if imageSizes[index].width > 0.0 && imageSizes[index].height > 0.0 {
        imageStatus := imageStatus.(status := ImageLoading.Success);
        SaveImageSize(index, imageStatus);
        return;
      }

      var imageLoaded := ImageLoading.IsLocal(image.url);

      if ImageLoading.Truthy(image.width) && ImageLoading.Truthy(image.height) {
        if enablePreload && !imageLoaded {
          prefetched := prefetched + [image.url];
        }
        imageStatus := ImageLoading.ImageSize(image.width.value, image.height.value, ImageLoading.Success);
        SaveImageSize(index, imageStatus);
        return;
      }

      if image.url != "" {
        match probe.fetched
        case Some(d) =>
          imageStatus := ImageLoading.ImageSize(d.width, d.height, ImageLoading.Success);
          SaveImageSize(index, imageStatus);
        case None =>
          imageStatus := imageStatus.(status := ImageLoading.Fail);
          SaveImageSize(index, imageStatus);
      } else if image.hasSource {
        imageStatus := ImageLoading.ImageSize(probe.asset.width, probe.asset.height, ImageLoading.Success);
        SaveImageSize(index, imageStatus);
      } else {
        imageStatus := imageStatus.(status := ImageLoading.Fail);
        SaveImageSize(index, imageStatus);
      }
    }

    /** `saveImageSize`: write the settled entry, unless the entry has left `loading` meanwhile. */
    method SaveImageSize(index: int, imageStatus: ImageLoading.ImageSize)
      requires 0 <= index < |imageSizes|
      modifies this`imageSizes
      ensures imageSizes == ImageLoading.Save(old(imageSizes), index, imageStatus)
    {
      if imageSizes[index].status != ImageLoading.Loading {
        return;
      }
      imageSizes := imageSizes[index := imageStatus];
    }

    /** `preloadImage`: load the image after `index`. */
    method PreloadImage(index: int, probe: ImageLoading.Probe)
      requires Valid()
      modifies this`imageSizes, this`loadedIndex, this`prefetched
      ensures Valid()
      ensures ImageState() ==
        if index < |imageUrls| then ImageLoading.Load(old(ImageState()), imageUrls, enablePreload, index + 1, probe)
        else old(ImageState())
    {
      if index < |imageSizes| {
        LoadImage(index + 1, probe);
      }
    }

    /** `handleHorizontalOuterRangeOffset`: the strip follows a drag past the image's edge, and the neighbour dragged towards is loaded. */
    method HandleHorizontalOuterRangeOffset(offsetX: real, probe: ImageLoading.Probe)
      requires Valid()
      modifies this`positionXNumber, this`imageSizes, this`loadedIndex, this`prefetched
      ensures Valid()
      ensures PagerState() == Paging.Drag(old(PagerState()), offsetX)
      ensures ImageState() ==
        ImageLoading.LoadAt(old(ImageState()), imageUrls, enablePreload,
                            Paging.DragLoad(Layout(), |imageUrls|, currentShowIndex, offsetX), probe)
    {
      positionXNumber := standardPositionX + offsetX;

      var offsetXRTL := if !isRTL then offsetX else -offsetX;

      if offsetXRTL < 0.0 {
        if Paging.NextGuard(currentShowIndex, |imageUrls|) {
          LoadImage(currentShowIndex + 1, probe);
        }
      } else if offsetXRTL > 0.0 {
        if Paging.PreviousGuard(currentShowIndex) {
          LoadImage(currentShowIndex - 1, probe);
        }
      }
    }

    /**
     * `handleResponderRelease`: a fling turns the page, else a drag beyond
     * the flip threshold, else the strip returns to rest. After a fling the
     * image of the index read before the change, minus or plus one, is loaded.
     */
    method HandleResponderRelease(vx: real, probe: ImageLoading.Probe)
      requires Valid()
      modifies this`currentShowIndex, this`standardPositionX, this`positionXNumber
      modifies this`imageSizes, this`loadedIndex, this`prefetched
      ensures Valid()
      ensures PagerState() == Paging.Release(Layout(), |imageUrls|, flipThreshold, old(PagerState()), vx)
      ensures ImageState() ==
        ImageLoading.LoadAt(old(ImageState()), imageUrls, enablePreload,
                            Paging.ReleaseLoad(Layout(), |imageUrls|, old(currentShowIndex), vx), probe)
    {
      // this.state.currentShowIndex still reads the index from before the page change
      var shownIndex := currentShowIndex;
      var vxRTL := Paging.DirectedVelocity(Layout(), vx);
      var isLeftMove := if isRTL then positionXNumber - standardPositionX < -flipThreshold
                        else positionXNumber - standardPositionX > flipThreshold;
      var isRightMove := if isRTL then positionXNumber - standardPositionX > flipThreshold
                         else positionXNumber - standardPositionX < -flipThreshold;

      if vxRTL > Paging.FlingVelocity {
        GoBack();
        if Paging.PreviousGuard(shownIndex) {
          LoadImage(shownIndex - 1, probe);
        }
        return;
      } else if vxRTL < -Paging.FlingVelocity {
        GoNext();
        if Paging.NextGuard(shownIndex, |imageUrls|) {
          LoadImage(shownIndex + 1, probe);
        }
        return;
      }

      if isLeftMove {
        GoBack();
      } else if isRightMove {
        GoNext();
        return;
      } else {
        ResetPosition();
        return;
      }
    }

    /** `goBack`: to the previous page, or back to rest on the first. */
    method GoBack()
      modifies this`currentShowIndex, this`standardPositionX, this`positionXNumber
      ensures PagerState() == Paging.GoBack(Layout(), old(PagerState()))
    {
      if currentShowIndex == 0 {
        ResetPosition();
        return;
      }
      positionXNumber := if !isRTL then standardPositionX + width else standardPositionX - width;
      standardPositionX := positionXNumber;
      var nextIndex := currentShowIndex - 1;
      currentShowIndex := nextIndex;
    }

    /** `goNext`: to the next page, or back to rest on the last. */
    method GoNext()
      modifies this`currentShowIndex, this`standardPositionX, this`positionXNumber
      ensures PagerState() == Paging.GoNext(Layout(), |imageUrls|, old(PagerState()))
    {
      if currentShowIndex == |imageUrls| - 1 {
        ResetPosition();
        return;
      }
      positionXNumber := if !isRTL then standardPositionX - width else standardPositionX + width;
      standardPositionX := positionXNumber;
      var nextIndex := currentShowIndex + 1;
      currentShowIndex := nextIndex;
    }

    /** `resetPosition`: the strip returns to the resting offset. */
    method ResetPosition()
      modifies this`positionXNumber
      ensures PagerState() == Paging.Reset(old(PagerState()))
    {
      positionXNumber := standardPositionX;
    }

    /** `handleLongPress`: open the save menu when saving by long press is enabled. */
    method HandleLongPress()
      modifies this`isShowMenu
      ensures isShowMenu == (saveToLocalByLongPress || old(isShowMenu))
    {
      if saveToLocalByLongPress {
        isShowMenu := true;
      }
    }

    /** `handleLeaveMenu`: close the menu. */
    method HandleLeaveMenu()
      modifies this`isShowMenu
      ensures !isShowMenu
    {
      isShowMenu := false;
    }

    /**
     * `saveToLocal`: hand the shown image's url to the save routine and
     * close the menu. With no image at the shown index the source fails on
     * reading its url before closing the menu; the model returns None then.
     */
    method SaveToLocal() returns (url: Option<string>)
      modifies this`isShowMenu
      ensures 0 <= currentShowIndex < |imageUrls| ==> url == Some(imageUrls[currentShowIndex].url) && !isShowMenu
      ensures !(0 <= currentShowIndex < |imageUrls|) ==> url == None && isShowMenu == old(isShowMenu)
    {
      if !(0 <= currentShowIndex < |imageUrls|) {
        return None;
      }
      url := Some(imageUrls[currentShowIndex].url);
      isShowMenu := false;
    }
  }

  /**
   * The guards `index || 0 < n - 1` and `index || 0 > 0`, as JavaScript
   * parses them, lead to the same state as the intended `index < n - 1` and
   * `index > 0`: where they differ the index asked for has no entry.
   */
  lemma PrecedenceSlipIsHarmless(s: ImageLoading.Images, urls: seq<ImageLoading.ImageInfo>, enablePreload: bool,
                                 index: int, probe: ImageLoading.Probe)
    requires |s.sizes| == |urls|
    ensures var n := |urls|;
      && (if Paging.NextGuard(index, n) then ImageLoading.Load(s, urls, enablePreload, index + 1, probe) else s)
         == (if index < n - 1 then ImageLoading.Load(s, urls, enablePreload, index + 1, probe) else s)
      && (if Paging.PreviousGuard(index) then ImageLoading.Load(s, urls, enablePreload, index - 1, probe) else s)
         == (if index > 0 then ImageLoading.Load(s, urls, enablePreload, index - 1, probe) else s)
  {
  }

  /** On a mounted viewer whose strip is at rest on a valid page, the shown page and the strip stay together through any gestures. */
  lemma MountedViewerStaysOnPage(l: Paging.Layout, n: int, threshold: real, index: int, gs: seq<Paging.Gesture>)
    requires n >= 1 && 0 <= index < n
    ensures var p := Paging.Jump(l, Paging.Pager(index, 0.0, 0.0));
            var r := Paging.Run(l, n, threshold, p, gs);
            0 <= r.index < n && Paging.Aligned(l, r)
  {
    var p := Paging.Jump(l, Paging.Pager(index, 0.0, 0.0));
    assert Paging.Aligned(l, p) by {
      if p.position == Paging.PageOffset(l, index) {
        assert p.standard == p.position;
      }
    }
    Paging.RunKeepsPageInvariant(l, n, threshold, p, gs);
  }
}
